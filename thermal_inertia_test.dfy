/**
 * The thermal inertia test: a night-time experiment that heats a house to
 * half a degree above its setpoint, then turns the supply down and times a
 * one-degree drop, from which the building's time constant follows by
 * Newton's law of cooling.
 *
 * Times are UTC seconds supplied by the caller (`now`); the logarithm that
 * turns a cooling fit into a time constant is not modelled, so a result is
 * the fit it would be computed from.
 */
module ThermalInertia {
  import opened Common

  const TestOvershoot := 0.5
  const TestDrop := 1.0
  const TestTimeoutSeconds := 8 * 3600
  const MinSupplyTemp := 15.0
  const TestWindowStart := 23
  const TestWindowEnd := 7
  const MaxWindSpeed := 3.0
  const MinOutdoorDelta := 20.0
  const MaxForecastSwing := 2.0
  const CalibrationStaleMonths := 10
  const DefaultSetpoint := 22.0

  datatype Phase = Idle | Heating | Cooldown | Complete | Failed

  /** What the caller is to do with the supply temperature after a poll. */
  datatype Action = Heat | CoolDown | Restore

  /** One cooldown reading (rounding to two decimals is not modelled). */
  datatype Reading = Reading(timestamp: int, indoorTemp: real, outdoorTemp: real)

  /**
   * The data the time constant is computed from: the cooldown's length and
   * how far above the average outdoor temperature the house was at its end
   * and at its start; τ = -hours / ln(endExcess / startExcess).
   */
  datatype CoolingFit = CoolingFit(elapsedSeconds: int, endExcess: real, startExcess: real)

  /** What is stored on the customer's profile when a time constant is measured. */
  datatype TauRecord = TauRecord(fit: CoolingFit, measuredAt: int, source: string)

  datatype TestState = TestState(
    phase: Phase,
    startedAt: Option<int>,
    phaseStartedAt: Option<int>,
    initialIndoorTemp: Option<real>,
    peakIndoorTemp: Option<real>,
    cooldownStartTemp: Option<real>,
    targetDropTemp: Option<real>,
    outdoorTempAtStart: Option<real>,
    setpoint: Option<real>,
    readings: seq<Reading>,
    resultTau: Option<CoolingFit>,
    failureReason: Option<string>)

  const IdleState := TestState(Idle, None, None, None, None, None, None, None, None, [], None, None)

  /**
   * The fields each phase relies on: an active or finished test has a
   * start time, heating has a setpoint, cooldown has its start and target
   * temperatures, and a reported time constant is a decaying fit.
   */
  ghost predicate Valid(s: TestState)
  {
    && (s.phase != Idle ==> s.startedAt.Some?)
    && (s.phase == Heating ==> s.setpoint.Some?)
    && (s.phase == Cooldown ==> s.cooldownStartTemp.Some? && s.targetDropTemp.Some?
                                && s.targetDropTemp.value == s.cooldownStartTemp.value - TestDrop)
    && (s.phase == Complete ==> s.resultTau.Some?)
    && (s.resultTau.Some? ==> ValidFit(s.resultTau.value))
  }

  /** The local hour, approximating Central European Time as UTC+1. */
  function LocalHour(now: int): (h: int)
    ensures 0 <= h < 24
  {
    ((now / 3600) % 24 + 1) % 24
  }

  // ---------------------------------------------------------------------
  // Qualifying conditions
  // ---------------------------------------------------------------------

  /**
   * `needs_calibration`: never measured, a measurement time that does not
   * parse (`measuredAt` holds the parse result), or a measurement older
   * than ten 30-day months.
   */
  function NeedsCalibration(tau: Option<real>, measuredAtText: string, measuredAt: Option<int>, now: int)
    : (r: bool)
    ensures tau.None? ==> r
    ensures tau.Some? && measuredAtText == [] ==> !r
    ensures tau.Some? && measuredAtText != [] && measuredAt.Some? ==>
      (r <==> ((now - measuredAt.value) / 86400) as real / 30.0 > CalibrationStaleMonths as real)
  {
    if tau.None? then true
    else if measuredAtText != [] then
      match measuredAt
      case None => true
      case Some(t) => ((now - t) / 86400) as real / 30.0 > CalibrationStaleMonths as real
    else false
  }

  /** The forecast temperatures that are present. */
  function PresentTemps(points: seq<Option<real>>): (temps: seq<real>)
    ensures |temps| <= |points|
    ensures forall x :: x in temps <==> Some(x) in points
  {
    if points == [] then []
    else
      var rest := PresentTemps(points[1..]);
      assert forall x :: Some(x) in points <==> (points[0] == Some(x) || Some(x) in points[1..]);
      match points[0]
      case Some(t) => [t] + rest
      case None => rest
  }

  /** No two forecast temperatures differ by more than `bound`. */
  ghost predicate SwingWithin(temps: seq<real>, bound: real)
  {
    forall i, j :: 0 <= i < |temps| && 0 <= j < |temps| ==> temps[i] - temps[j] <= bound
  }

  function ForecastSwingTooLarge(temps: seq<real>): bool
  {
    |temps| >= 2 && MaxOf(temps) - MinOf(temps) > MaxForecastSwing
  }

  /** The max-minus-min test is exactly the pairwise swing bound. */
  lemma ForecastSwingMeaning(temps: seq<real>)
    ensures ForecastSwingTooLarge(temps) <==> !SwingWithin(temps, MaxForecastSwing)
  {
    if |temps| >= 2 {
      var hi := MaxOf(temps);
      var lo := MinOf(temps);
      if ForecastSwingTooLarge(temps) {
        var i :| 0 <= i < |temps| && temps[i] == hi;
        var j :| 0 <= j < |temps| && temps[j] == lo;
        assert temps[i] - temps[j] > MaxForecastSwing;
      }
    }
  }

  /** Inside the night window with at least two hours left before it closes. */
  predicate InStartWindow(localHour: int)
  {
    localHour >= TestWindowStart || localHour < TestWindowEnd - 2
  }

  /**
   * `check_conditions`: the hour, calm wind, a known outdoor temperature
   * at least 20 degrees below the setpoint, and (when a forecast is given)
   * a stable forecast.
   */
  function CheckConditions(now: int, wind: Option<real>, outdoor: Option<real>,
                           forecast: Option<seq<Option<real>>>, setpoint: real): (ok: bool)
  {
    if !InStartWindow(LocalHour(now)) then false
    else if wind.Some? && wind.value > MaxWindSpeed then false
    else if outdoor.None? then false
    else if outdoor.value > setpoint - MinOutdoorDelta then false
    else if forecast.Some? && ForecastSwingTooLarge(PresentTemps(forecast.value)) then false
    else true
  }

  /** The test may start exactly when every condition holds. */
  lemma CheckConditionsMeaning(now: int, wind: Option<real>, outdoor: Option<real>,
                               forecast: Option<seq<Option<real>>>, setpoint: real)
    ensures CheckConditions(now, wind, outdoor, forecast, setpoint) <==>
      && (LocalHour(now) >= 23 || LocalHour(now) < 5)
      && (wind.None? || wind.value <= MaxWindSpeed)
      && outdoor.Some? && outdoor.value <= setpoint - MinOutdoorDelta
      && (forecast.Some? ==> SwingWithin(PresentTemps(forecast.value), MaxForecastSwing))
  {
    if forecast.Some? {
      ForecastSwingMeaning(PresentTemps(forecast.value));
    }
  }

  // ---------------------------------------------------------------------
  // Phase transitions
  // ---------------------------------------------------------------------

  /** `_enter_cooldown`: the drop target is one degree below the current temperature. */
  function CooldownStep(s: TestState, indoor: real, now: int): (r: TestState)
    ensures r.phase == Cooldown && r.readings == []
    ensures r.cooldownStartTemp == r.peakIndoorTemp == Some(indoor)
    ensures r.targetDropTemp == Some(indoor - TestDrop)
    ensures r.startedAt == s.startedAt && r.setpoint == s.setpoint && r.resultTau == s.resultTau
  {
    s.(phase := Cooldown, phaseStartedAt := Some(now), peakIndoorTemp := Some(indoor),
       cooldownStartTemp := Some(indoor), targetDropTemp := Some(indoor - TestDrop), readings := [])
  }

  /**
   * `start_test`: a fresh test in the heating phase, or straight in
   * cooldown when the house is already half a degree above the setpoint.
   */
  function StartStep(indoor: real, setpoint: real, outdoor: real, now: int): (r: (TestState, Action))
  {
    var started := TestState(Heating, Some(now), Some(now), Some(indoor), None, None, None, Some(outdoor),
                           Some(setpoint), [], None, None);
    if indoor >= setpoint + TestOvershoot then (CooldownStep(started, indoor, now), CoolDown)
    else (started, Heat)
  }

  lemma StartTestMeaning(indoor: real, setpoint: real, outdoor: real, now: int)
    ensures var (s, action) := StartStep(indoor, setpoint, outdoor, now);
      && Valid(s) && s.startedAt == Some(now) && s.setpoint == Some(setpoint) && s.readings == []
      && (indoor < setpoint + TestOvershoot ==> s.phase == Heating && action == Heat)
      && (indoor >= setpoint + TestOvershoot ==>
            s.phase == Cooldown && action == CoolDown && s.targetDropTemp == Some(indoor - TestDrop))
  {
  }

  function Outdoors(readings: seq<Reading>): (temps: seq<real>)
    ensures |temps| == |readings|
    ensures forall k :: 0 <= k < |readings| ==> temps[k] == readings[k].outdoorTemp
  {
    seq(|readings|, k requires 0 <= k < |readings| => readings[k].outdoorTemp)
  }

  /** The cooling fit of the readings against the cooldown's start temperature. */
  function Fit(readings: seq<Reading>, cooldownStart: real): (fit: CoolingFit)
    requires readings != []
    ensures fit.elapsedSeconds == readings[|readings| - 1].timestamp - readings[0].timestamp
    ensures fit.startExcess - fit.endExcess == cooldownStart - readings[|readings| - 1].indoorTemp
    ensures fit.endExcess == readings[|readings| - 1].indoorTemp - Mean(Outdoors(readings))
    ensures fit.startExcess == cooldownStart - Mean(Outdoors(readings))
  {
    var avgOutdoor := Mean(Outdoors(readings));
    CoolingFit(readings[|readings| - 1].timestamp - readings[0].timestamp,
               readings[|readings| - 1].indoorTemp - avgOutdoor, cooldownStart - avgOutdoor)
  }

  /** The logarithm is defined and the time constant positive-direction: 0 < end < start. */
  predicate ValidFit(fit: CoolingFit)
  {
    fit.startExcess > 0.0 && fit.endExcess > 0.0 && fit.endExcess < fit.startExcess
  }

  const PartialMinReadings := 6
  const PartialMinDrop := 0.3

  /**
   * The failing branch of `_finish_test`: phase failed with the reason,
   * and for a timeout with at least six readings and a drop of at least
   * 0.3 degrees a partial time constant is kept and stored.
   */
  function FailTest(s: TestState, reason: string, now: int): (r: (TestState, Option<TauRecord>))
    ensures r.0 == s.(phase := Failed, failureReason := Some(reason), resultTau := r.0.resultTau)
    ensures r.1.Some? ==> reason == "timeout" && |s.readings| >= PartialMinReadings
                          && r.1.value.source == "measured_partial" && r.0.resultTau == Some(r.1.value.fit)
                          && ValidFit(r.1.value.fit)
    ensures r.1.None? ==> r.0.resultTau == s.resultTau
  {
    var failed := s.(phase := Failed, failureReason := Some(reason));
    var readings := s.readings;
    if reason == "timeout" && |readings| >= PartialMinReadings && s.cooldownStartTemp.Some?
       && s.cooldownStartTemp.value != 0.0 then
      var cooldownStart := s.cooldownStartTemp.value;
      var fit := Fit(readings, cooldownStart);
      if cooldownStart - readings[|readings| - 1].indoorTemp >= PartialMinDrop && ValidFit(fit) then
        (failed.(resultTau := Some(fit)), Some(TauRecord(fit, now, "measured_partial")))
      else (failed, None)
    else (failed, None)
  }

  /**
   * `_finish_test` (it always asks the caller to restore): a success with
   * readings completes the test when the fit is valid and otherwise fails
   * it as invalid data; any other reason fails it.
   */
  function FinishStep(s: TestState, reason: string, now: int): (r: (TestState, Option<TauRecord>))
  {
    if reason == "success" && s.readings != [] && s.cooldownStartTemp.Some? then
      var fit := Fit(s.readings, s.cooldownStartTemp.value);
      if ValidFit(fit) then
        (s.(phase := Complete, resultTau := Some(fit)), Some(TauRecord(fit, now, "measured")))
      else FailTest(s, "invalid_data", now)
    else if reason == "success" then (s, None)
    else FailTest(s, reason, now)
  }

  lemma FinishTestMeaning(s: TestState, reason: string, now: int)
    requires Valid(s) && s.phase != Idle
    ensures var (r, stored) := FinishStep(s, reason, now);
      && Valid(r) && r.readings == s.readings
      && (reason != "success" ==> r.phase == Failed && r.failureReason == Some(reason))
      && (reason == "success" && s.readings != [] && s.cooldownStartTemp.Some? ==>
            (r.phase == Complete && stored.Some? && stored.value.source == "measured")
            || (r.phase == Failed && r.failureReason == Some("invalid_data") && stored.None?))
      && (stored.Some? ==> r.resultTau == Some(stored.value.fit) && stored.value.measuredAt == now)
  {
  }

  /** One poll's outcome: the new state, a measurement to store, the caller's action. */
  datatype PollResult = PollResult(state: TestState, stored: Option<TauRecord>, action: Option<Action>)

  /**
   * `poll`: nothing for an idle test; restore on an eight-hour timeout,
   * or outside the night window unless still heating; heating turns into
   * cooldown at the target; cooldown records a reading and restores once
   * the drop target is reached.
   */
  function PollStep(s: TestState, indoor: real, outdoor: real, now: int): (r: PollResult)
    requires Valid(s)
  {
    if s.phase == Idle then PollResult(s, None, None)
    else if s.startedAt.Some? && now - s.startedAt.value > TestTimeoutSeconds then
      var (f, stored) := FinishStep(s, "timeout", now);
      PollResult(f, stored, Some(Restore))
    else if s.phase != Heating && TestWindowEnd <= LocalHour(now) < TestWindowStart then
      var (f, stored) := FinishStep(s, "window_closed", now);
      PollResult(f, stored, Some(Restore))
    else if s.phase == Heating then
      if indoor >= s.setpoint.value + TestOvershoot then PollResult(CooldownStep(s, indoor, now), None, Some(CoolDown))
      else PollResult(s, None, Some(Heat))
    else if s.phase == Cooldown then
      var recorded := s.(readings := s.readings + [Reading(now, indoor, outdoor)]);
      if indoor <= s.targetDropTemp.value then
        var (f, stored) := FinishStep(recorded, "success", now);
        PollResult(f, stored, Some(Restore))
      else PollResult(recorded, None, Some(CoolDown))
    else PollResult(s, None, None)
  }

  /** Every poll keeps the phase fields consistent. */
  lemma PollKeepsValid(s: TestState, indoor: real, outdoor: real, now: int)
    requires Valid(s)
    ensures Valid(PollStep(s, indoor, outdoor, now).state)
  {
    if s.phase != Idle {
      FinishTestMeaning(s, "timeout", now);
      FinishTestMeaning(s, "window_closed", now);
      if s.phase == Cooldown {
        FinishTestMeaning(s.(readings := s.readings + [Reading(now, indoor, outdoor)]), "success", now);
      }
    }
  }

  function Timeout(s: TestState, now: int): bool
  {
    s.startedAt.Some? && now - s.startedAt.value > TestTimeoutSeconds
  }

  /**
   * A cooldown poll before the timeout and inside the window records one
   * reading, and ends the test exactly when the drop target is reached;
   * the test then completes or fails as invalid data.
   */
  lemma CooldownPollMeaning(s: TestState, indoor: real, outdoor: real, now: int)
    requires Valid(s) && s.phase == Cooldown
    requires !Timeout(s, now) && !(TestWindowEnd <= LocalHour(now) < TestWindowStart)
    ensures var r := PollStep(s, indoor, outdoor, now);
      && r.state.readings == s.readings + [Reading(now, indoor, outdoor)]
      && (r.action == Some(Restore) <==> indoor <= s.targetDropTemp.value)
      && (r.action != Some(Restore) ==> r.action == Some(CoolDown) && r.state.phase == Cooldown)
      && (r.action == Some(Restore) ==>
            (r.state.phase == Complete && r.stored.Some?) || r.state.failureReason == Some("invalid_data"))
  {
    var recorded := s.(readings := s.readings + [Reading(now, indoor, outdoor)]);
    FinishTestMeaning(recorded, "success", now);
  }

  /**
   * A heating poll (heating ignores the window) asks for heat until the
   * overshoot target is reached, then starts the cooldown from the
   * current temperature.
   */
  lemma HeatingPollMeaning(s: TestState, indoor: real, outdoor: real, now: int)
    requires Valid(s) && s.phase == Heating && !Timeout(s, now)
    ensures var r := PollStep(s, indoor, outdoor, now);
      && (indoor < s.setpoint.value + TestOvershoot ==> r.state == s && r.action == Some(Heat))
      && (indoor >= s.setpoint.value + TestOvershoot ==>
            r.action == Some(CoolDown) && r.state == CooldownStep(s, indoor, now))
  {
  }

  /** Whatever the phase, a test past its eight hours is ended and restored. */
  lemma TimeoutRestores(s: TestState, indoor: real, outdoor: real, now: int)
    requires Valid(s) && s.phase != Idle && Timeout(s, now)
    ensures PollStep(s, indoor, outdoor, now).action == Some(Restore)
    ensures PollStep(s, indoor, outdoor, now).state.phase == Failed
    ensures PollStep(s, indoor, outdoor, now).state.failureReason == Some("timeout")
  {
  }

  /**
   * `poll` does not stop at finished tests: polling a completed test in
   * the daytime window ends it again, now as failed for a closed window.
   */
  lemma PollingCompletedTestInDaytimeFailsIt(s: TestState, indoor: real, outdoor: real, now: int)
    requires Valid(s) && s.phase == Complete && !Timeout(s, now)
    requires TestWindowEnd <= LocalHour(now) < TestWindowStart
    ensures PollStep(s, indoor, outdoor, now).state.phase == Failed
    ensures PollStep(s, indoor, outdoor, now).state.failureReason == Some("window_closed")
  {
  }

  /** `is_active`. */
  predicate Active(s: TestState)
  {
    s.phase == Heating || s.phase == Cooldown
  }

  /** `abort`: only an active test is failed, with the reason prefixed. */
  function AbortStep(s: TestState, reason: string): (r: TestState)
    ensures Active(s) ==> r.phase == Failed && r.failureReason == Some("aborted: " + reason)
                            && r == s.(phase := Failed, failureReason := r.failureReason)
    ensures !Active(s) ==> r == s
    ensures !Active(r)
  {
    if Active(s) then s.(phase := Failed, failureReason := Some("aborted: " + reason)) else s
  }

  /** `get_supply_for_phase`: a boost in heating, the minimum in cooldown, nothing otherwise. */
  function SupplyFor(s: TestState): (supply: Option<real>)
    ensures supply.Some? <==> Active(s)
    ensures s.phase == Cooldown ==> supply == Some(MinSupplyTemp)
    ensures s.phase == Heating && s.setpoint.Some? && s.setpoint.value != 0.0 ==>
      supply == Some(s.setpoint.value + 10.0)
  {
    if s.phase == Heating then
      Some((if s.setpoint.None? || s.setpoint.value == 0.0 then DefaultSetpoint else s.setpoint.value) + 10.0)
    else if s.phase == Cooldown then Some(MinSupplyTemp)
    else None
  }

  // ---------------------------------------------------------------------
  // The test object
  // ---------------------------------------------------------------------

  class ThermalInertiaTest {
    var state: TestState
    /** The time constant last written to the customer's profile. */
    var storedTau: Option<TauRecord>

    constructor (storedTau: Option<TauRecord>)
      ensures state == IdleState && this.storedTau == storedTau
    {
      state := IdleState;
      this.storedTau := storedTau;
    }

    ghost predicate ValidTest()
      reads this
    {
      Valid(state)
    }

    method StartTest(indoor: real, setpoint: real, outdoor: real, now: int) returns (action: Action)
      modifies this
      ensures (state, action) == StartStep(indoor, setpoint, outdoor, now)
      ensures storedTau == old(storedTau) && ValidTest()
    {
      state := TestState(Heating, Some(now), Some(now), Some(indoor), None, None, None, Some(outdoor),
                         Some(setpoint), [], None, None);
      StartTestMeaning(indoor, setpoint, outdoor, now);
      if indoor >= setpoint + TestOvershoot {
        action := EnterCooldown(indoor, now);
        return;
      }
      return Heat;
    }

    method EnterCooldown(indoor: real, now: int) returns (action: Action)
      modifies this
      ensures state == CooldownStep(old(state), indoor, now) && action == CoolDown
      ensures storedTau == old(storedTau)
    {
      state := state.(phase := Cooldown, phaseStartedAt := Some(now), peakIndoorTemp := Some(indoor));
      state := state.(cooldownStartTemp := Some(indoor), targetDropTemp := Some(indoor - TestDrop));
      state := state.(readings := []);
      return CoolDown;
    }

    method FinishTest(reason: string, now: int) returns (action: Action)
      modifies this
      ensures var (s, stored) := FinishStep(old(state), reason, now);
        && state == s && action == Restore
        && storedTau == (if stored.Some? then stored else old(storedTau))
    {
      var (s, stored) := FinishStep(state, reason, now);
      state := s;
      if stored.Some? {
        storedTau := stored;
      }
      return Restore;
    }

    method Poll(indoor: real, outdoor: real, now: int) returns (action: Option<Action>)
      requires ValidTest()
      modifies this
      ensures var r := PollStep(old(state), indoor, outdoor, now);
        && state == r.state && action == r.action
        && storedTau == (if r.stored.Some? then r.stored else old(storedTau))
      ensures ValidTest()
    {
      PollKeepsValid(state, indoor, outdoor, now);
      if state.phase == Idle {
        return None;
      }
      if state.startedAt.Some? && now - state.startedAt.value > TestTimeoutSeconds {
        var a := FinishTest("timeout", now);
        return Some(a);
      }
      if state.phase != Heating && TestWindowEnd <= LocalHour(now) < TestWindowStart {
        var a := FinishTest("window_closed", now);
        return Some(a);
      }
      if state.phase == Heating {
        if indoor >= state.setpoint.value + TestOvershoot {
          var a := EnterCooldown(indoor, now);
          return Some(a);
        }
        return Some(Heat);
      } else if state.phase == Cooldown {
        state := state.(readings := state.readings + [Reading(now, indoor, outdoor)]);
        if indoor <= state.targetDropTemp.value {
          var a := FinishTest("success", now);
          return Some(a);
        }
        return Some(CoolDown);
      }
      return None;
    }

    function IsActive(): bool
      reads this
    {
      Active(state)
    }

    function SupplyForPhase(): (supply: Option<real>)
      reads this
      ensures supply.Some? <==> IsActive()
    {
      SupplyFor(state)
    }

    method Abort(reason: string)
      modifies this
      ensures state == AbortStep(old(state), reason) && storedTau == old(storedTau)
    {
      if IsActive() {
        state := state.(phase := Failed, failureReason := Some("aborted: " + reason));
      }
    }
  }
}
