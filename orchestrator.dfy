/**
 * The orchestrator that runs one fetcher subprocess per house and per
 * building: reconciling the running children with the discovered
 * configurations (new ones get staggered poll offsets), restarting
 * crashed children with exponential backoff, and building each child's
 * environment with its credentials.
 *
 * Starting and stopping processes are recorded as state; which children
 * have exited and the monotonic clock reading are inputs.
 */
module Orchestration {
  import opened Common

  const PollOffsetStep := 10
  const RestartBackoffBase := 10
  const RestartBackoffMax := 300
  const LongRunSeconds := 600.0

  // ---------------------------------------------------------------------
  // Environment
  // ---------------------------------------------------------------------

  /** `_env_key`: `<prefix>_<id>_<suffix>`. */
  function EnvKey(prefix: string, configId: string, suffix: string): (key: string)
    ensures |key| == |prefix| + |configId| + |suffix| + 2
  {
    prefix + "_" + configId + "_" + suffix
  }

  /** With the prefix and suffix fixed, distinct ids get distinct variable names. */
  lemma EnvKeyInjective(prefix: string, a: string, b: string, suffix: string)
    requires EnvKey(prefix, a, suffix) == EnvKey(prefix, b, suffix)
    ensures a == b
  {
    var k := EnvKey(prefix, a, suffix);
    assert |a| == |b|;
    assert a == k[|prefix| + 1..|prefix| + 1 + |a|];
    assert b == EnvKey(prefix, b, suffix)[|prefix| + 1..|prefix| + 1 + |b|];
  }

  type Env = map<string, string>

  /** `os.getenv(name, "")`. */
  function Getenv(env: Env, name: string): string
  {
    if name in env then env[name] else ""
  }

  datatype Credentials = Credentials(username: string, password: string, domain: string)

  /**
   * The credential lookup of `build_building_env`: through the building's
   * `credential_ref` (empty when the configuration or the reference is
   * missing), then, for a username or password still empty, the legacy
   * `BUILDING_<id>_*` variables; the domain only through the reference.
   */
  function BuildingCredentials(env: Env, configId: string, credentialRef: string): (c: Credentials)
    ensures credentialRef != [] && Getenv(env, credentialRef + "_USERNAME") != [] ==>
      c.username == Getenv(env, credentialRef + "_USERNAME")
    ensures (credentialRef == [] || Getenv(env, credentialRef + "_USERNAME") == []) ==>
      c.username == Getenv(env, EnvKey("BUILDING", configId, "USERNAME"))
    ensures credentialRef != [] && Getenv(env, credentialRef + "_PASSWORD") != [] ==>
      c.password == Getenv(env, credentialRef + "_PASSWORD")
    ensures (credentialRef == [] || Getenv(env, credentialRef + "_PASSWORD") == []) ==>
      c.password == Getenv(env, EnvKey("BUILDING", configId, "PASSWORD"))
    ensures c.domain == if credentialRef != [] then Getenv(env, credentialRef + "_DOMAIN") else ""
  {
    var username := if credentialRef != [] then Getenv(env, credentialRef + "_USERNAME") else "";
    var password := if credentialRef != [] then Getenv(env, credentialRef + "_PASSWORD") else "";
    var domain := if credentialRef != [] then Getenv(env, credentialRef + "_DOMAIN") else "";
    Credentials(if username == [] then Getenv(env, EnvKey("BUILDING", configId, "USERNAME")) else username,
                if password == [] then Getenv(env, EnvKey("BUILDING", configId, "PASSWORD")) else password,
                domain)
  }

  /** The variables `build_building_env` sets on top of the inherited environment. */
  function BuildingEnv(env: Env, configId: string, credentialRef: string, pollOffset: int): (child: Env)
    ensures BuildingEnvNames <= child.Keys
    ensures var c := BuildingCredentials(env, configId, credentialRef);
      && child["BMS_USERNAME"] == child["ARRIGO_USERNAME"] == c.username
      && child["BMS_PASSWORD"] == child["ARRIGO_PASSWORD"] == c.password
      && child["BMS_DOMAIN"] == c.domain
      && ParseInt(child["POLL_OFFSET_SECONDS"]) == Some(pollOffset)
    ensures forall name :: name in env && name !in BuildingEnvNames ==> name in child && child[name] == env[name]
  {
    var c := BuildingCredentials(env, configId, credentialRef);
    ParseIntToString(pollOffset);
    env["BMS_USERNAME" := c.username]["BMS_PASSWORD" := c.password]["BMS_DOMAIN" := c.domain]
       ["ARRIGO_USERNAME" := c.username]["ARRIGO_PASSWORD" := c.password]
       ["POLL_OFFSET_SECONDS" := IntToString(pollOffset)]
  }

  const BuildingEnvNames: set<string> :=
    {"BMS_USERNAME", "BMS_PASSWORD", "BMS_DOMAIN", "ARRIGO_USERNAME", "ARRIGO_PASSWORD", "POLL_OFFSET_SECONDS"}

  const HouseEnvNames: set<string> :=
    {"HOMESIDE_USERNAME", "HOMESIDE_PASSWORD", "HOMESIDE_CLIENTID", "FRIENDLY_NAME", "DISPLAY_NAME_SOURCE",
     "POLL_INTERVAL_MINUTES", "INFLUXDB_ENABLED", "POLL_OFFSET_SECONDS"}

  /** `build_house_env`: the house's own HomeSide credentials and settings with defaults. */
  function HouseEnv(env: Env, configId: string, friendlyName: string, pollOffset: int): (child: Env)
    ensures HouseEnvNames <= child.Keys
    ensures child["HOMESIDE_USERNAME"] == Getenv(env, EnvKey("HOUSE", configId, "USERNAME"))
    ensures child["HOMESIDE_PASSWORD"] == Getenv(env, EnvKey("HOUSE", configId, "PASSWORD"))
    ensures child["POLL_INTERVAL_MINUTES"] == (if "POLL_INTERVAL_MINUTES" in env then env["POLL_INTERVAL_MINUTES"] else "5")
    ensures child["INFLUXDB_ENABLED"] == (if "INFLUXDB_ENABLED" in env then env["INFLUXDB_ENABLED"] else "true")
    ensures ParseInt(child["POLL_OFFSET_SECONDS"]) == Some(pollOffset)
  {
    ParseIntToString(pollOffset);
    env["HOMESIDE_USERNAME" := Getenv(env, EnvKey("HOUSE", configId, "USERNAME"))]
       ["HOMESIDE_PASSWORD" := Getenv(env, EnvKey("HOUSE", configId, "PASSWORD"))]
       ["HOMESIDE_CLIENTID" := ""]["FRIENDLY_NAME" := friendlyName]["DISPLAY_NAME_SOURCE" := "friendly_name"]
       ["POLL_INTERVAL_MINUTES" := if "POLL_INTERVAL_MINUTES" in env then env["POLL_INTERVAL_MINUTES"] else "5"]
       ["INFLUXDB_ENABLED" := if "INFLUXDB_ENABLED" in env then env["INFLUXDB_ENABLED"] else "true"]
       ["POLL_OFFSET_SECONDS" := IntToString(pollOffset)]
  }

  // ---------------------------------------------------------------------
  // Sorted ids
  // ---------------------------------------------------------------------

  /** The smallest id of a non-empty set. */
  ghost function Least(s: set<string>): (m: string)
    requires s != {}
    ensures m in s && forall x :: x in s && x != m ==> StrLess(m, x)
  {
    var x :| x in s;
    if s == {x} then x
    else
      var rest := Least(s - {x});
      if StrLess(x, rest) then
        LeastBelowAll(x, rest, s - {x});
        x
      else
        StrLessTotal(x, rest);
        rest
  }

  /** The least id is below every other id of the set. */
  lemma LeastBelow(s: set<string>, y: string)
    requires y in s && y != Least(s)
    ensures StrLess(Least(s), y)
  {
  }

  lemma LeastBelowAll(x: string, rest: string, others: set<string>)
    requires StrLess(x, rest) && forall y :: y in others && y != rest ==> StrLess(rest, y)
    ensures forall y :: y in others ==> StrLess(x, y)
  {
    forall y | y in others
      ensures StrLess(x, y)
    {
      if y != rest {
        StrLessTransitive(x, rest, y);
      }
    }
  }

  /** `sorted(ids)`. */
  ghost function Sorted(s: set<string>): (r: seq<string>)
    ensures |r| == |s| && forall x :: x in r <==> x in s
    decreases |s|
  {
    if s == {} then []
    else
      var m := Least(s);
      [m] + Sorted(s - {m})
  }

  /** The ids come out in strictly ascending order. */
  lemma {:induction false} SortedAscending(s: set<string>, i: nat, j: nat)
    requires i < j < |Sorted(s)|
    ensures StrLess(Sorted(s)[i], Sorted(s)[j])
    decreases |s|
  {
    var m := Least(s);
    SortedUnfold(s, m);
    if i == 0 {
      SortedHeadBelow(s, j);
    } else {
      var smaller := s - {m};
      var rest := Sorted(smaller);
      assert |Sorted(s)| == 1 + |rest|;
      assert Sorted(s)[i] == rest[i - 1] && Sorted(s)[j] == rest[j - 1];
      assert |smaller| < |s| by { assert |rest| < |Sorted(s)|; }
      SortedAscending(smaller, i - 1, j - 1);
      StrLessOfEqual(rest[i - 1], rest[j - 1], Sorted(s)[i], Sorted(s)[j]);
    }
  }

  /** Order carries over to equal ids (spelled out so the solver need not unfold `StrLess`). */
  lemma StrLessOfEqual(a: string, b: string, c: string, d: string)
    requires StrLess(a, b) && a == c && b == d
    ensures StrLess(c, d)
  {
  }

  /** The first sorted id is below every later one. */
  lemma SortedHeadBelow(s: set<string>, j: nat)
    requires 0 < j < |Sorted(s)|
    ensures StrLess(Sorted(s)[0], Sorted(s)[j])
  {
    var m := Least(s);
    SortedUnfold(s, m);
    var rest := Sorted(s - {m});
    var y := Sorted(s)[j];
    assert y == rest[j - 1];
    assert y in rest;
    LeastBelow(s, y);
  }

  // ---------------------------------------------------------------------
  // Children
  // ---------------------------------------------------------------------

  /** A discovered configuration: its file, kind and display name. */
  datatype ConfigInfo = ConfigInfo(path: string, kind: string, friendlyName: string)

  /** `Child`: whether its process was started, and the restart bookkeeping. */
  datatype Child = Child(configPath: string, configId: string, friendlyName: string, kind: string,
                         pollOffset: int, started: bool, consecutiveCrashes: int, lastStart: real,
                         backoffUntil: real)

  /** `spawn_child` at time `now`. */
  function Spawn(c: Child, now: real): Child
  {
    c.(started := true, lastStart := now)
  }

  /** The `k`-th new child of a reconcile, spawned with its staggered offset. */
  function NewChild(id: string, cfg: ConfigInfo, offset: int, now: real): Child
  {
    Spawn(Child(cfg.path, id, cfg.friendlyName, cfg.kind, offset, false, 0, 0.0, 0.0), now)
  }

  /** The children a reconcile adds: new ids in the given order with offsets `base`, `base + 10`, … */
  function AddNew(children: map<string, Child>, ids: seq<string>, configs: map<string, ConfigInfo>, base: int,
                  now: real): (r: map<string, Child>)
    requires forall id :: id in ids ==> id in configs
    ensures r.Keys == children.Keys + (set id | id in ids)
  {
    if ids == [] then children
    else
      var n := |ids| - 1;
      assert forall id :: id in ids[..n] ==> id in ids;
      AddNew(children, ids[..n], configs, base, now)[ids[n] := NewChild(ids[n], configs[ids[n]], base + PollOffsetStep * n, now)]
  }

  ghost predicate Distinct(ids: seq<string>)
  {
    forall i, j :: 0 <= i < j < |ids| ==> ids[i] != ids[j]
  }

  lemma {:induction false} AddNewMeaning(children: map<string, Child>, ids: seq<string>, configs: map<string, ConfigInfo>,
                                         base: int, now: real)
    requires forall id :: id in ids ==> id in configs
    requires Distinct(ids)
    ensures forall k :: 0 <= k < |ids| ==>
      AddNew(children, ids, configs, base, now)[ids[k]] == NewChild(ids[k], configs[ids[k]], base + PollOffsetStep * k, now)
    ensures forall id :: id in children && id !in ids ==> AddNew(children, ids, configs, base, now)[id] == children[id]
  {
    if ids != [] {
      var n := |ids| - 1;
      assert forall id :: id in ids[..n] ==> id in ids;
      assert forall k :: 0 <= k < n ==> ids[..n][k] == ids[k];
      AddNewMeaning(children, ids[..n], configs, base, now);
    }
  }

  /** The `k`-th added child, one index at a time. */
  lemma {:induction false} AddNewAt(children: map<string, Child>, ids: seq<string>, configs: map<string, ConfigInfo>,
                                    base: int, now: real, k: nat)
    requires forall id :: id in ids ==> id in configs
    requires Distinct(ids) && k < |ids|
    ensures ids[k] in configs
    ensures AddNew(children, ids, configs, base, now)[ids[k]] == NewChild(ids[k], configs[ids[k]], base + PollOffsetStep * k, now)
  {
    assert ids[k] in ids;
    var n := |ids| - 1;
    if k < n {
      var prefix := ids[..n];
      assert prefix[k] == ids[k];
      assert forall id :: id in prefix ==> id in ids;
      assert Distinct(prefix);
      AddNewAt(children, prefix, configs, base, now, k);
      assert ids[k] != ids[n];
    }
  }

  /**
   * `reconcile`: new configurations are started in sorted id order with
   * offsets continuing after the current children, and children whose
   * configuration is gone are stopped and removed.
   */
  ghost function ReconcileChildren(children: map<string, Child>, configs: map<string, ConfigInfo>, now: real)
    : (r: map<string, Child>)
    ensures r.Keys == configs.Keys
  {
    var ids := NewIds(children, configs);
    var added := AddNew(children, ids, configs, |children| * PollOffsetStep, now);
    map id | id in configs :: added[id]
  }

  /** The ids of configurations without a child, sorted. */
  ghost function NewIds(children: map<string, Child>, configs: map<string, ConfigInfo>): (ids: seq<string>)
    ensures forall id :: id in ids <==> id in configs && id !in children
  {
    Sorted(configs.Keys - children.Keys)
  }

  /** Reconciling is adding the new children, then removing those without a configuration. */
  lemma ReconcileAsRemoval(children: map<string, Child>, configs: map<string, ConfigInfo>, now: real)
    ensures var added := AddNew(children, NewIds(children, configs), configs, |children| * PollOffsetStep, now);
      ReconcileChildren(children, configs, now) == added - (children.Keys - configs.Keys)
  {
    var added := AddNew(children, NewIds(children, configs), configs, |children| * PollOffsetStep, now);
    var r := ReconcileChildren(children, configs, now);
    var removed := added - (children.Keys - configs.Keys);
    assert removed.Keys == configs.Keys;
    forall id | id in configs
      ensures r[id] == removed[id]
    {
    }
  }

  lemma SortedDistinct(s: set<string>)
    ensures Distinct(Sorted(s))
  {
    var ids := Sorted(s);
    forall i, j | 0 <= i < j < |ids|
      ensures ids[i] != ids[j]
    {
      SortedAscending(s, i, j);
      if ids[i] == ids[j] {
        StrLessIrreflexive(ids[i]);
      }
    }
  }

  /**
   * After a reconcile the children are exactly the configurations; the
   * children that stayed are untouched; new ones are started, the k-th in
   * sorted id order at offset `len(children) * 10 + 10 * k`.
   */
  lemma ReconcileMeaning(children: map<string, Child>, configs: map<string, ConfigInfo>, now: real)
    ensures var r := ReconcileChildren(children, configs, now);
      && (forall id :: id in children && id in configs ==> r[id] == children[id])
      && var ids := NewIds(children, configs);
         forall k :: 0 <= k < |ids| ==>
           && ids[k] in configs && ids[k] !in children
           && r[ids[k]] == NewChild(ids[k], configs[ids[k]], |children| * PollOffsetStep + PollOffsetStep * k, now)
  {
    ReconcileKeepsStaying(children, configs, now);
    ReconcileStartsNew(children, configs, now);
  }

  /** The children whose configuration remains are untouched by a reconcile. */
  lemma ReconcileKeepsStaying(children: map<string, Child>, configs: map<string, ConfigInfo>, now: real)
    ensures var r := ReconcileChildren(children, configs, now);
      forall id :: id in children && id in configs ==> r[id] == children[id]
  {
    var ids := NewIds(children, configs);
    var base := |children| * PollOffsetStep;
    var added := AddNew(children, ids, configs, base, now);
    var r := ReconcileChildren(children, configs, now);
    SortedDistinct(configs.Keys - children.Keys);
    AddNewMeaning(children, ids, configs, base, now);
    forall id | id in children && id in configs
      ensures r[id] == children[id]
    {
      assert id !in ids;
      assert r[id] == added[id];
    }
  }

  /** The k-th new id of a reconcile is started with the k-th staggered offset. */
  lemma ReconcileStartsNew(children: map<string, Child>, configs: map<string, ConfigInfo>, now: real)
    ensures var r := ReconcileChildren(children, configs, now);
      var ids := NewIds(children, configs);
      forall k :: 0 <= k < |ids| ==>
        && ids[k] in configs && ids[k] !in children
        && r[ids[k]] == NewChild(ids[k], configs[ids[k]], |children| * PollOffsetStep + PollOffsetStep * k, now)
  {
    forall k | 0 <= k < |NewIds(children, configs)| {
      ReconcileStartsNewAt(children, configs, now, k);
    }
  }

  /** The k-th new child of a reconcile, one at a time. */
  lemma ReconcileStartsNewAt(children: map<string, Child>, configs: map<string, ConfigInfo>, now: real, k: nat)
    requires k < |NewIds(children, configs)|
    ensures var ids := NewIds(children, configs);
      && ids[k] in configs && ids[k] !in children
      && ReconcileChildren(children, configs, now)[ids[k]]
         == NewChild(ids[k], configs[ids[k]], |children| * PollOffsetStep + PollOffsetStep * k, now)
  {
    var ids := NewIds(children, configs);
    var base := |children| * PollOffsetStep;
    var added := AddNew(children, ids, configs, base, now);
    assert ids[k] in ids;
    SortedDistinct(configs.Keys - children.Keys);
    AddNewAt(children, ids, configs, base, now, k);
    assert added[ids[k]] == NewChild(ids[k], configs[ids[k]], base + PollOffsetStep * k, now);
  }

  /** New children's offsets ascend with their ids. */
  lemma NewOffsetsAscendWithIds(children: map<string, Child>, configs: map<string, ConfigInfo>, now: real,
                                a: string, b: string)
    requires a in configs && b in configs && a !in children && b !in children && StrLess(a, b)
    ensures var r := ReconcileChildren(children, configs, now);
      r[a].pollOffset < r[b].pollOffset
  {
    var ids := NewIds(children, configs);
    var i :| 0 <= i < |ids| && ids[i] == a;
    var j :| 0 <= j < |ids| && ids[j] == b;
    assert i < j by {
      if j == i {
        StrLessIrreflexive(a);
      } else if j < i {
        SortedAscending(configs.Keys - children.Keys, j, i);
        StrLessOfEqual(ids[j], ids[i], b, a);
        StrLessAsymmetric(a, b);
      }
    }
    ReconcileStartsNewAt(children, configs, now, i);
    ReconcileStartsNewAt(children, configs, now, j);
  }

  // ---------------------------------------------------------------------
  // Crash restarts
  // ---------------------------------------------------------------------

  function Pow2(n: nat): (p: nat)
    ensures p >= 1
  {
    if n == 0 then 1 else 2 * Pow2(n - 1)
  }

  /** The restart delay after the `crashes`-th consecutive crash. */
  function Backoff(crashes: int): int
  {
    var delay := RestartBackoffBase * Pow2(if crashes >= 1 then crashes - 1 else 0);
    if delay < RestartBackoffMax then delay else RestartBackoffMax
  }

  lemma {:induction false} Pow2Monotone(a: nat, b: nat)
    requires a <= b
    ensures Pow2(a) <= Pow2(b)
  {
    if a < b {
      Pow2Monotone(a, b - 1);
    }
  }

  /** The delay starts at 10 s, doubles, never falls, and is capped at 300 s from the sixth crash. */
  lemma BackoffMeaning(crashes: int, more: int)
    requires 1 <= crashes <= more
    ensures Backoff(1) == 10 && Backoff(2) == 20
    ensures 10 <= Backoff(crashes) <= Backoff(more) <= RestartBackoffMax
    ensures crashes >= 6 ==> Backoff(crashes) == RestartBackoffMax
    ensures crashes <= 5 ==> Backoff(crashes) == 10 * Pow2(crashes - 1)
  {
    Pow2Monotone(crashes - 1, more - 1);
    Pow2Monotone(0, crashes - 1);
    if crashes >= 6 {
      Pow2Monotone(5, crashes - 1);
    }
    assert Pow2(5) == 32;
  }

  /**
   * One child's turn in `check_crashed`: a child never started, still
   * running or still inside its backoff is left alone; otherwise the crash
   * is counted, the next backoff set from that count, the count reset to 1
   * after a run of more than ten minutes, and the child restarted.
   */
  function CrashStep(c: Child, now: real, exited: bool): (r: Child)
    ensures !c.started || !exited || now < c.backoffUntil ==> r == c
    ensures c.started && exited && now >= c.backoffUntil ==>
      && r.backoffUntil == now + Backoff(c.consecutiveCrashes + 1) as real
      && r.consecutiveCrashes == (if now - c.lastStart > LongRunSeconds then 1 else c.consecutiveCrashes + 1)
      && r.started && r.lastStart == now
      && r == c.(consecutiveCrashes := r.consecutiveCrashes, backoffUntil := r.backoffUntil, lastStart := now)
  {
    if !c.started || !exited || now < c.backoffUntil then c
    else
      var crashes := c.consecutiveCrashes + 1;
      var restarted := c.(backoffUntil := now + Backoff(crashes) as real);
      Spawn(if now - c.lastStart > LongRunSeconds then restarted.(consecutiveCrashes := 1)
            else restarted.(consecutiveCrashes := crashes), now)
  }

  /**
   * `k` crashes in quick succession (each after the previous backoff, none
   * after a long run) count up from zero and set the delay of the `k`-th.
   */
  function QuickCrashes(c: Child, times: seq<real>): Child
    decreases |times|
  {
    if times == [] then c else QuickCrashes(CrashStep(c, times[0], true), times[1..])
  }

  ghost predicate QuickSchedule(c: Child, times: seq<real>)
    decreases |times|
  {
    times != [] ==>
      && times[0] >= c.backoffUntil && times[0] - c.lastStart <= LongRunSeconds
      && QuickSchedule(CrashStep(c, times[0], true), times[1..])
  }

  lemma {:induction false} QuickCrashesCount(c: Child, times: seq<real>)
    requires c.started && QuickSchedule(c, times)
    ensures QuickCrashes(c, times).consecutiveCrashes == c.consecutiveCrashes + |times|
    decreases |times|
    ensures times != [] ==>
      QuickCrashes(c, times).backoffUntil == times[|times| - 1] + Backoff(c.consecutiveCrashes + |times|) as real
  {
    if times != [] {
      QuickCrashesCount(CrashStep(c, times[0], true), times[1..]);
      if |times| > 1 {
        assert times[1..][|times[1..]| - 1] == times[|times| - 1];
      }
    }
  }

  /** `check_crashed` over all children. */
  function RestartCrashed(children: map<string, Child>, now: real, exited: set<string>): (r: map<string, Child>)
    ensures r.Keys == children.Keys
  {
    map id | id in children :: CrashStep(children[id], now, id in exited)
  }

  /** The least id of a non-empty set, found by scanning it. */
  method LeastId(s: set<string>) returns (m: string)
    requires s != {}
    ensures m == Least(s)
  {
    m :| m in s;
    var seen := {m};
    while seen != s
      invariant seen <= s && m in seen
      invariant forall x :: x in seen && x != m ==> StrLess(m, x)
      decreases |s - seen|
    {
      var x :| x in s - seen;
      if StrLess(x, m) {
        LeastBelowAll(x, m, seen);
        m := x;
      }
      else if x != m {
        StrLessTotal(x, m);
      }
      seen := seen + {x};
    }
    LeastUnique(s, m);
  }

  /** Only one element of a set is below all the others. */
  lemma LeastUnique(s: set<string>, m: string)
    requires m in s && forall x :: x in s && x != m ==> StrLess(m, x)
    ensures m == Least(s)
  {
    var l := Least(s);
    if l != m {
      StrLessAsymmetric(m, l);
    }
  }

  lemma SortedUnfold(s: set<string>, m: string)
    requires s != {} && m == Least(s)
    ensures Sorted(s) == [m] + Sorted(s - {m})
  {
  }

  /** Moving the least remaining id to the output keeps the sorted whole. */
  lemma SortedStep(r: seq<string>, remaining: set<string>, m: string)
    requires remaining != {} && m == Least(remaining)
    ensures (r + [m]) + Sorted(remaining - {m}) == r + Sorted(remaining)
  {
    SortedUnfold(remaining, m);
    var rest := Sorted(remaining - {m});
    assert r + ([m] + rest) == (r + [m]) + rest;
  }

  /** `sorted(ids)` by repeatedly taking the least remaining id. */
  method SortIds(s: set<string>) returns (r: seq<string>)
    ensures r == Sorted(s)
  {
    r := [];
    var remaining := s;
    while remaining != {}
      invariant r + Sorted(remaining) == Sorted(s)
      decreases |remaining|
    {
      var m := LeastId(remaining);
      SortedStep(r, remaining, m);
      r := r + [m];
      remaining := remaining - {m};
    }
  }

  /** Starts the children for `ids` one by one, each offset one step after the previous one. */
  method StartNew(children: map<string, Child>, ids: seq<string>, configs: map<string, ConfigInfo>, base: int,
                  now: real) returns (added: map<string, Child>)
    requires forall id :: id in ids ==> id in configs
    ensures added == AddNew(children, ids, configs, base, now)
  {
    var nextOffset := base;
    added := children;
    for k := 0 to |ids|
      invariant nextOffset == base + PollOffsetStep * k
      invariant added == AddNew(children, ids[..k], configs, base, now)
    {
      assert ids[..k + 1][..k] == ids[..k];
      var id := ids[k];
      added := added[id := NewChild(id, configs[id], nextOffset, now)];
      nextOffset := nextOffset + PollOffsetStep;
    }
    assert ids[..|ids|] == ids;
  }

  // ---------------------------------------------------------------------
  // The orchestrator's state
  // ---------------------------------------------------------------------

  class Orchestrator {
    var children: map<string, Child>

    constructor ()
      ensures children == map[]
    {
      children := map[];
    }

    method Reconcile(configs: map<string, ConfigInfo>, now: real) returns (stopped: set<string>)
      modifies this
      ensures children == ReconcileChildren(old(children), configs, now)
      ensures stopped == old(children).Keys - configs.Keys
    {
      var current := children.Keys;
      var ids := SortIds(configs.Keys - current);
      assert ids == NewIds(children, configs);
      var added := StartNew(children, ids, configs, |children| * PollOffsetStep, now);
      stopped := current - configs.Keys;
      ReconcileAsRemoval(children, configs, now);
      children := added - stopped;
    }

    method CheckCrashed(now: real, exited: set<string>)
      modifies this
      ensures children == RestartCrashed(old(children), now, exited)
    {
      var remaining := children.Keys;
      var result := children;
      while remaining != {}
        invariant remaining <= children.Keys && result.Keys == children.Keys
        invariant forall id :: id in children && id !in remaining ==>
          result[id] == CrashStep(children[id], now, id in exited)
        invariant forall id :: id in remaining ==> result[id] == children[id]
        decreases |remaining|
      {
        var id :| id in remaining;
        result := result[id := CrashStep(children[id], now, id in exited)];
        remaining := remaining - {id};
      }
      children := result;
    }
  }
}
