/**
 * The customer profile: building, comfort and heating-system settings plus
 * the parameters the forecaster learns. Loading and saving the JSON file
 * are left out; the profile is an object whose learned parameters the
 * learning code updates in place.
 */
module CustomerProfiles {
  import opened Common

  datatype BuildingConfig = BuildingConfig(description: string, thermalResponse: string)

  datatype ComfortConfig = ComfortConfig(targetIndoorTemp: real, acceptableDeviation: real)

  datatype HeatingSystemConfig = HeatingSystemConfig(responseTimeMinutes: int, maxSupplyTemp: real)

  /** Learned parameters; `updatedAt` is the update time in seconds. */
  datatype LearnedParameters = LearnedParameters(
    thermalCoefficient: Option<real>,
    thermalCoefficientConfidence: real,
    hourlyBias: map<string, real>,
    samplesSinceLastUpdate: int,
    totalSamples: int,
    nextUpdateAtSamples: int,
    updatedAt: Option<int>)

  const DefaultComfort := ComfortConfig(22.0, 1.0)

  /** A fresh profile: first bias update after 24 samples. */
  const DefaultLearned := LearnedParameters(None, 0.0, map[], 0, 0, 24, None)

  // ---------------------------------------------------------------------
  // The sample schedule
  // ---------------------------------------------------------------------

  /** The next update interval after one fires: 24 -> 48 -> 96, then 96 for good. */
  function NextInterval(current: int): (n: int)
    ensures current == 24 ==> n == 48
    ensures current != 24 && current != 48 ==> n == current
    ensures current in {24, 48, 96} ==> n in {48, 96} && n >= current
  {
    if current == 24 then 48
    else if current == 48 then 96
    else current
  }

  /**
   * One `record_sample`: the new learned parameters and whether the hourly
   * bias is due for an update.
   */
  function RecordSampleStep(l: LearnedParameters): (r: (LearnedParameters, bool))
    ensures r.0.totalSamples == l.totalSamples + 1
    ensures r.1 <==> l.samplesSinceLastUpdate + 1 >= l.nextUpdateAtSamples
    ensures r.1 ==> (r.0.samplesSinceLastUpdate == 0 &&
                     r.0.nextUpdateAtSamples == NextInterval(l.nextUpdateAtSamples))
    ensures !r.1 ==> (r.0.samplesSinceLastUpdate == l.samplesSinceLastUpdate + 1 &&
                      r.0.nextUpdateAtSamples == l.nextUpdateAtSamples)
    ensures r.0.(samplesSinceLastUpdate := l.samplesSinceLastUpdate,
                 totalSamples := l.totalSamples,
                 nextUpdateAtSamples := l.nextUpdateAtSamples) == l
  {
    var counted := l.(samplesSinceLastUpdate := l.samplesSinceLastUpdate + 1,
                      totalSamples := l.totalSamples + 1);
    if counted.samplesSinceLastUpdate >= counted.nextUpdateAtSamples then
      (counted.(nextUpdateAtSamples := NextInterval(counted.nextUpdateAtSamples),
                samplesSinceLastUpdate := 0), true)
    else (counted, false)
  }

  /** The schedule state a profile reaches from its defaults. */
  predicate ScheduleInvariant(l: LearnedParameters)
  {
    && l.nextUpdateAtSamples in {24, 48, 96}
    && 0 <= l.samplesSinceLastUpdate < l.nextUpdateAtSamples
  }

  /** Recording a sample keeps the schedule in {24, 48, 96} and never lets it shrink. */
  lemma RecordSamplePreservesSchedule(l: LearnedParameters)
    requires ScheduleInvariant(l)
    ensures ScheduleInvariant(RecordSampleStep(l).0)
    ensures RecordSampleStep(l).0.nextUpdateAtSamples >= l.nextUpdateAtSamples
  {
  }

  /** The state after `n` samples recorded on `l`. */
  function AfterSamples(l: LearnedParameters, n: nat): LearnedParameters
  {
    if n == 0 then l else RecordSampleStep(AfterSamples(l, n - 1)).0
  }

  /**
   * From any scheduled state, no update fires during the next
   * `next - since - 1` samples, and the sample after them fires one.
   */
  lemma {:induction false} UpdateFiresAfterInterval(l: LearnedParameters, n: nat)
    requires ScheduleInvariant(l)
    requires n < l.nextUpdateAtSamples - l.samplesSinceLastUpdate
    ensures AfterSamples(l, n) == l.(samplesSinceLastUpdate := l.samplesSinceLastUpdate + n,
                                      totalSamples := l.totalSamples + n)
    ensures RecordSampleStep(AfterSamples(l, n)).1 <==>
            n == l.nextUpdateAtSamples - l.samplesSinceLastUpdate - 1
  {
    if n > 0 {
      UpdateFiresAfterInterval(l, n - 1);
    }
  }

  /** From the defaults the first update is due at the 24th sample. */
  lemma FirstUpdateAt24()
    ensures !RecordSampleStep(AfterSamples(DefaultLearned, 22)).1
    ensures RecordSampleStep(AfterSamples(DefaultLearned, 23)).1
    ensures RecordSampleStep(AfterSamples(DefaultLearned, 23)).0.nextUpdateAtSamples == 48
  {
    UpdateFiresAfterInterval(DefaultLearned, 22);
    UpdateFiresAfterInterval(DefaultLearned, 23);
  }

  /** `update_learned_params`: only the supplied values change, and the update time. */
  function UpdateLearned(l: LearnedParameters, coefficient: Option<real>,
                         confidence: Option<real>, now: int): (r: LearnedParameters)
    ensures r.thermalCoefficient == (if coefficient.Some? then coefficient else l.thermalCoefficient)
    ensures r.thermalCoefficientConfidence ==
            (if confidence.Some? then confidence.value else l.thermalCoefficientConfidence)
    ensures r.updatedAt == Some(now)
    ensures r.(thermalCoefficient := l.thermalCoefficient,
               thermalCoefficientConfidence := l.thermalCoefficientConfidence,
               updatedAt := l.updatedAt) == l
  {
    var a := if coefficient.Some? then l.(thermalCoefficient := coefficient) else l;
    var b := if confidence.Some? then a.(thermalCoefficientConfidence := confidence.value) else a;
    b.(updatedAt := Some(now))
  }

  // ---------------------------------------------------------------------
  // Status report
  // ---------------------------------------------------------------------

  datatype LearningStatus = WaitingForData | LearningLow | LearningModerate | Stable

  datatype Status = Status(
    customer: string,
    targetTemp: real,
    learningStatus: LearningStatus,
    thermalCoefficient: Option<real>,
    totalSamples: int,
    hourlyBiasCoverage: nat,
    nextUpdateIn: int,
    lastUpdated: Option<int>)

  function LearningStatusOf(l: LearnedParameters): (s: LearningStatus)
    ensures s == WaitingForData <==> l.thermalCoefficient.None?
    ensures s == LearningLow <==> l.thermalCoefficient.Some? && l.thermalCoefficientConfidence < 0.5
    ensures s == LearningModerate <==>
            l.thermalCoefficient.Some? && 0.5 <= l.thermalCoefficientConfidence < 0.8
    ensures s == Stable <==> l.thermalCoefficient.Some? && l.thermalCoefficientConfidence >= 0.8
  {
    if l.thermalCoefficient.None? then WaitingForData
    else if l.thermalCoefficientConfidence < 0.5 then LearningLow
    else if l.thermalCoefficientConfidence < 0.8 then LearningModerate
    else Stable
  }

  /** The hours whose bias is non-zero. */
  function NonZeroBiasKeys(bias: map<string, real>): (r: set<string>)
    ensures r <= bias.Keys
    ensures forall k :: k in r <==> k in bias && bias[k] != 0.0
  {
    set k | k in bias && bias[k] != 0.0
  }

  /** `get_status` for a profile with the given name, comfort and learned parameters. */
  function GetStatus(friendlyName: string, comfort: ComfortConfig, l: LearnedParameters): (s: Status)
    ensures s.nextUpdateIn + l.samplesSinceLastUpdate == l.nextUpdateAtSamples
    ensures ScheduleInvariant(l) ==> 1 <= s.nextUpdateIn <= 96
    ensures s.hourlyBiasCoverage <= |l.hourlyBias|
    ensures s.hourlyBiasCoverage == |l.hourlyBias| <==>
            forall k :: k in l.hourlyBias ==> l.hourlyBias[k] != 0.0
    ensures s.learningStatus == LearningStatusOf(l)
  {
    var nonZero := NonZeroBiasKeys(l.hourlyBias);
    SubsetCardinality(nonZero, l.hourlyBias.Keys);
    Status(friendlyName, comfort.targetIndoorTemp, LearningStatusOf(l), l.thermalCoefficient,
           l.totalSamples, |nonZero|, l.nextUpdateAtSamples - l.samplesSinceLastUpdate,
           l.updatedAt)
  }

  lemma {:induction false} SubsetCardinality<T>(a: set<T>, b: set<T>)
    requires a <= b
    ensures |a| <= |b|
    ensures |a| == |b| <==> a == b
  {
    if b != {} {
      var x :| x in b;
      SubsetCardinality(a - {x}, b - {x});
      if x in a {
        assert a == (a - {x}) + {x};
        assert b == (b - {x}) + {x};
      } else {
        assert a - {x} == a;
      }
    }
  }

  // ---------------------------------------------------------------------
  // The profile object
  // ---------------------------------------------------------------------

  class CustomerProfile {
    var customerId: string
    var friendlyName: string
    var building: BuildingConfig
    var comfort: ComfortConfig
    var heatingSystem: HeatingSystemConfig
    var learned: LearnedParameters

    constructor (customerId: string, friendlyName: string, building: BuildingConfig,
                 comfort: ComfortConfig, heatingSystem: HeatingSystemConfig,
                 learned: LearnedParameters)
      ensures this.customerId == customerId && this.friendlyName == friendlyName
      ensures this.building == building && this.comfort == comfort
      ensures this.heatingSystem == heatingSystem && this.learned == learned
    {
      this.customerId := customerId;
      this.friendlyName := friendlyName;
      this.building := building;
      this.comfort := comfort;
      this.heatingSystem := heatingSystem;
      this.learned := learned;
    }

    /** `record_sample`: count one sample and report whether the bias update is due. */
    method RecordSample() returns (shouldUpdate: bool)
      modifies this
      ensures (learned, shouldUpdate) == RecordSampleStep(old(learned))
      ensures customerId == old(customerId) && friendlyName == old(friendlyName)
      ensures building == old(building) && comfort == old(comfort)
      ensures heatingSystem == old(heatingSystem)
    {
      learned := learned.(samplesSinceLastUpdate := learned.samplesSinceLastUpdate + 1,
                          totalSamples := learned.totalSamples + 1);
      shouldUpdate := learned.samplesSinceLastUpdate >= learned.nextUpdateAtSamples;
      if shouldUpdate {
        var current := learned.nextUpdateAtSamples;
        if current == 24 {
          learned := learned.(nextUpdateAtSamples := 48);
        } else if current == 48 {
          learned := learned.(nextUpdateAtSamples := 96);
        }
        learned := learned.(samplesSinceLastUpdate := 0);
      }
    }

    /** `update_learned_params` at time `now`. */
    method UpdateLearnedParams(coefficient: Option<real>, confidence: Option<real>, now: int)
      modifies this
      ensures learned == UpdateLearned(old(learned), coefficient, confidence, now)
      ensures customerId == old(customerId) && friendlyName == old(friendlyName)
      ensures building == old(building) && comfort == old(comfort)
      ensures heatingSystem == old(heatingSystem)
    {
      if coefficient.Some? {
        learned := learned.(thermalCoefficient := coefficient);
      }
      if confidence.Some? {
        learned := learned.(thermalCoefficientConfidence := confidence.value);
      }
      learned := learned.(updatedAt := Some(now));
    }
  }

  // ---------------------------------------------------------------------
  // Finding a profile for a HomeSide client id
  // ---------------------------------------------------------------------

  /** The candidate profile ids: the last path segment, then the second-to-last. */
  function CandidateIds(clientId: string): (ids: seq<string>)
    ensures 1 <= |ids| <= 2
    ensures ids[0] == Split(clientId, '/')[|Split(clientId, '/')| - 1]
    ensures |ids| == 2 <==> '/' in clientId
    ensures |ids| == 2 ==> |Split(clientId, '/')| >= 2 && ids[1] == Split(clientId, '/')[|Split(clientId, '/')| - 2]
  {
    SplitSingle(clientId, '/');
    var parts := Split(clientId, '/');
    if |parts| >= 2 then [parts[|parts| - 1], parts[|parts| - 2]] else [parts[|parts| - 1]]
  }

  /**
   * `find_profile_for_client_id`: the first candidate whose profile file
   * exists and loads; a file that fails to load is skipped.
   */
  function FindProfileId(clientId: string, fileExists: string -> bool, loads: string -> bool)
    : (r: Option<string>)
    ensures r.Some? ==> r.value in CandidateIds(clientId) && fileExists(r.value) && loads(r.value)
    ensures r.None? <==> forall id :: id in CandidateIds(clientId) ==> !(fileExists(id) && loads(id))
    ensures r.Some? && fileExists(CandidateIds(clientId)[0]) && loads(CandidateIds(clientId)[0]) ==>
            r.value == CandidateIds(clientId)[0]
  {
    FirstLoadable(CandidateIds(clientId), fileExists, loads)
  }

  function FirstLoadable(ids: seq<string>, fileExists: string -> bool, loads: string -> bool)
    : (r: Option<string>)
    ensures r.Some? ==> r.value in ids && fileExists(r.value) && loads(r.value)
    ensures r.None? <==> forall id :: id in ids ==> !(fileExists(id) && loads(id))
    ensures |ids| > 0 && fileExists(ids[0]) && loads(ids[0]) ==> r == Some(ids[0])
  {
    if ids == [] then None
    else if fileExists(ids[0]) && loads(ids[0]) then Some(ids[0])
    else
      assert forall id :: id in ids ==> id == ids[0] || id in ids[1..];
      FirstLoadable(ids[1..], fileExists, loads)
  }
}
