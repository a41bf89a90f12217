/**
 * The write throttle: a process-wide record of the last write time per
 * (measurement, house) that refuses a write until the minimum interval
 * has passed since the previous allowed one. The clock reading `now`
 * (seconds) is an input.
 */
module WriteThrottling {
  import opened Common

  /** A throttle key: (measurement, house id). */
  type ThrottleKey = (string, string)

  /**
   * `allow`: refused, with nothing recorded, while fewer than
   * `minInterval` seconds have passed since this key's last allowed
   * write; otherwise allowed and `now` becomes its last write.
   */
  function AllowStep(lastWrites: map<ThrottleKey, int>, key: ThrottleKey, now: int, minInterval: int)
    : (r: (map<ThrottleKey, int>, bool))
    ensures r.1 <==> key !in lastWrites || now - lastWrites[key] >= minInterval
    ensures r.1 ==> r.0 == lastWrites[key := now]
    ensures !r.1 ==> r.0 == lastWrites
  {
    if key in lastWrites && now - lastWrites[key] < minInterval then (lastWrites, false)
    else (lastWrites[key := now], true)
  }

  /** The first write of a key after process start is always allowed. */
  lemma FirstWriteAllowed(lastWrites: map<ThrottleKey, int>, key: ThrottleKey, now: int, minInterval: int)
    requires key !in lastWrites
    ensures AllowStep(lastWrites, key, now, minInterval) == (lastWrites[key := now], true)
  {
  }

  /** Keys are independent: a call for one key never changes another key's record. */
  lemma OtherKeysUnaffected(lastWrites: map<ThrottleKey, int>, key: ThrottleKey, other: ThrottleKey, now: int,
                            minInterval: int)
    requires other != key
    ensures other in AllowStep(lastWrites, key, now, minInterval).0 <==> other in lastWrites
    ensures other in lastWrites ==> AllowStep(lastWrites, key, now, minInterval).0[other] == lastWrites[other]
  {
  }

  /**
   * After an allowed write at `t`, every further call for that key before
   * `t + minInterval` is refused, and once that time is reached the next
   * call is allowed.
   */
  lemma AllowedWriteThrottlesUntilInterval(lastWrites: map<ThrottleKey, int>, key: ThrottleKey, t: int, later: int,
                                          minInterval: int)
    requires AllowStep(lastWrites, key, t, minInterval).1
    ensures var after := AllowStep(lastWrites, key, t, minInterval).0;
      AllowStep(after, key, later, minInterval).1 <==> later >= t + minInterval
  {
  }

  class WriteThrottle {
    var lastWrites: map<ThrottleKey, int>

    constructor ()
      ensures lastWrites == map[]
    {
      lastWrites := map[];
    }

    /** `allow(measurement, house_id, min_interval_seconds)` at time `now`. */
    method Allow(measurement: string, houseId: string, minInterval: int, now: int) returns (allowed: bool)
      modifies this
      ensures (lastWrites, allowed) == AllowStep(old(lastWrites), (measurement, houseId), now, minInterval)
    {
      var key := (measurement, houseId);
      if key in lastWrites && now - lastWrites[key] < minInterval {
        return false;
      }
      lastWrites := lastWrites[key := now];
      return true;
    }
  }

  /** The class-level slot holding the single throttle instance. */
  class ThrottleRegistry {
    var instance: Option<WriteThrottle>

    constructor ()
      ensures instance.None?
    {
      instance := None;
    }

    /** `WriteThrottle.get()`: the one instance, created empty on first use. */
    method Get() returns (t: WriteThrottle)
      modifies this
      ensures old(instance).Some? ==> t == old(instance).value
      ensures old(instance).None? ==> fresh(t) && t.lastWrites == map[]
      ensures instance == Some(t)
    {
      if instance.None? {
        var created := new WriteThrottle();
        instance := Some(created);
      }
      t := instance.value;
    }
  }
}
