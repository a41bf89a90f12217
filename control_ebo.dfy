/**
 * The EBO write controller's safety logic: resolving a signal name,
 * the value limits a signal is held to, the checks every write passes
 * before anything is sent, dry runs, the audit log, and read-back
 * verification.
 *
 * The building configuration is given as its analog signals; the EBO
 * API's answer to a property write and the values read back are inputs.
 */
module EboControl {
  import opened Common

  /** The outcome of a check that either passes with a value or fails with a reason. */
  datatype Outcome<T, E> = Pass(value: T) | Fail(error: E)

  /** One analog signal of the building configuration. */
  datatype SignalConfig = SignalConfig(fieldName: string, signalId: string, category: string, writeOnChange: bool)

  /** A loaded signal: its configuration and the key it was listed under. */
  datatype Signal = Signal(key: string, config: SignalConfig)

  /** A Python dictionary: its items in insertion order, keys distinct. */
  type Dict<V> = seq<(string, V)>

  ghost predicate DistinctKeys<V>(d: Dict<V>)
  {
    forall i, j :: 0 <= i < j < |d| ==> d[i].0 != d[j].0
  }

  function Keys<V>(d: Dict<V>): (ks: set<string>)
    ensures forall k :: k in ks <==> exists i :: 0 <= i < |d| && d[i].0 == k
  {
    if d == [] then {} else Keys(d[..|d| - 1]) + {d[|d| - 1].0}
  }

  /** `d[key] = value`: an existing key keeps its place, a new one goes last. */
  function Put<V>(d: Dict<V>, key: string, value: V): (r: Dict<V>)
    requires DistinctKeys(d)
    ensures DistinctKeys(r) && Keys(r) == Keys(d) + {key}
    ensures forall i :: 0 <= i < |r| && r[i].0 == key ==> r[i].1 == value
    ensures forall i :: 0 <= i < |r| && r[i].0 != key ==> i < |d| && r[i] == d[i]
  {
    if exists i :: 0 <= i < |d| && d[i].0 == key then
      var i :| 0 <= i < |d| && d[i].0 == key;
      ReplaceKeepsKeys(d, i, value);
      ReplaceKeepsOthers(d, i, value, d[i := (key, value)]);
      d[i := (key, value)]
    else
      AppendKeepsKeys(d, key, value);
      AppendKeepsOthers(d, key, value);
      d + [(key, value)]
  }

  lemma ReplaceKeepsKeys<V>(d: Dict<V>, i: nat, value: V)
    requires DistinctKeys(d) && i < |d|
    ensures DistinctKeys(d[i := (d[i].0, value)]) && Keys(d[i := (d[i].0, value)]) == Keys(d)
  {
    var r := d[i := (d[i].0, value)];
    assert forall j :: 0 <= j < |d| ==> r[j].0 == d[j].0;
    forall k | k in Keys(r)
      ensures k in Keys(d)
    {
      var j :| 0 <= j < |r| && r[j].0 == k;
      assert d[j].0 == k;
    }
    forall k | k in Keys(d)
      ensures k in Keys(r)
    {
      var j :| 0 <= j < |d| && d[j].0 == k;
      assert r[j].0 == k;
    }
  }

  lemma AppendKeepsKeys<V>(d: Dict<V>, key: string, value: V)
    requires DistinctKeys(d) && key !in Keys(d)
    ensures DistinctKeys(d + [(key, value)]) && Keys(d + [(key, value)]) == Keys(d) + {key}
  {
    var r := d + [(key, value)];
    forall k | k in Keys(r)
      ensures k in Keys(d) + {key}
    {
      var j :| 0 <= j < |r| && r[j].0 == k;
      if j < |d| {
        assert d[j].0 == k;
      }
    }
    forall k | k in Keys(d)
      ensures k in Keys(r)
    {
      var j :| 0 <= j < |d| && d[j].0 == k;
      assert r[j].0 == k;
    }
    assert r[|d|].0 == key;
  }

  lemma ReplaceKeepsOthers<V>(d: Dict<V>, i: nat, value: V, r: Dict<V>)
    requires DistinctKeys(d) && i < |d| && r == d[i := (d[i].0, value)]
    ensures forall j :: 0 <= j < |r| && r[j].0 == d[i].0 ==> r[j].1 == value
    ensures forall j :: 0 <= j < |r| && r[j].0 != d[i].0 ==> r[j] == d[j]
  {
  }

  lemma AppendKeepsOthers<V>(d: Dict<V>, key: string, value: V)
    requires key !in Keys(d)
    ensures forall j :: 0 <= j < |d| + 1 && (d + [(key, value)])[j].0 == key ==> (d + [(key, value)])[j].1 == value
    ensures forall j :: 0 <= j < |d| + 1 && (d + [(key, value)])[j].0 != key ==> j < |d| && (d + [(key, value)])[j] == d[j]
  {
  }

  function Get<V>(d: Dict<V>, key: string): (v: Option<V>)
    ensures v.Some? <==> key in Keys(d)
    ensures v.Some? ==> exists i :: 0 <= i < |d| && d[i] == (key, v.value)
  {
    if d == [] then None
    else if d[|d| - 1].0 == key then Some(d[|d| - 1].1)
    else Get(d[..|d| - 1], key)
  }

  /**
   * The index `_load_config` builds: every signal with a field name is
   * indexed under it (a repeated field name keeps its place and takes the
   * later signal).
   */
  function IndexSignals(analog: seq<(string, SignalConfig)>): (signals: Dict<Signal>)
    ensures DistinctKeys(signals)
    ensures forall k :: 0 <= k < |analog| && analog[k].1.fieldName != [] ==> analog[k].1.fieldName in Keys(signals)
    ensures forall f :: f in Keys(signals) ==> f != []
  {
    if analog == [] then []
    else
      var signals := IndexSignals(analog[..|analog| - 1]);
      assert forall k :: 0 <= k < |analog| - 1 ==> analog[..|analog| - 1][k] == analog[k];
      var (key, config) := analog[|analog| - 1];
      if config.fieldName == [] then signals
      else Put(signals, config.fieldName, Signal(key, config))
  }

  /** The whitelist `_load_config` builds: exactly the field names of the write-on-change signals. */
  function WritableFields(analog: seq<(string, SignalConfig)>): (writable: set<string>)
    ensures forall f :: f in writable <==>
      exists k :: 0 <= k < |analog| && analog[k].1.fieldName == f && f != [] && analog[k].1.writeOnChange
  {
    if analog == [] then {}
    else
      var writable := WritableFields(analog[..|analog| - 1]);
      assert forall k :: 0 <= k < |analog| - 1 ==> analog[..|analog| - 1][k] == analog[k];
      var config := analog[|analog| - 1].1;
      if config.fieldName != [] && config.writeOnChange then writable + {config.fieldName} else writable
  }

  /** `_load_config`: the signal index and the whitelist, which lies within the indexed fields. */
  function LoadSignals(analog: seq<(string, SignalConfig)>): (r: (Dict<Signal>, set<string>))
    ensures DistinctKeys(r.0)
    ensures r.1 <= Keys(r.0)
    ensures forall k :: 0 <= k < |analog| && analog[k].1.fieldName != [] ==> analog[k].1.fieldName in Keys(r.0)
    ensures forall f :: f in r.1 <==>
      exists k :: 0 <= k < |analog| && analog[k].1.fieldName == f && f != [] && analog[k].1.writeOnChange
  {
    (IndexSignals(analog), WritableFields(analog))
  }

  /** A dictionary lookup finds the value stored under a key. */
  lemma GetStored<V>(d: Dict<V>, i: nat)
    requires DistinctKeys(d) && i < |d|
    ensures Get(d, d[i].0) == Some(d[i].1)
  {
    var v := Get(d, d[i].0);
    var j :| 0 <= j < |d| && d[j] == (d[i].0, v.value);
  }

  /** After `d[key] = value`, the key maps to the value and every other key to what it mapped to before. */
  lemma GetAfterPut<V>(d: Dict<V>, key: string, value: V, f: string)
    requires DistinctKeys(d)
    ensures Get(Put(d, key, value), f) == if f == key then Some(value) else Get(d, f)
  {
    var r := Put(d, key, value);
    if f in Keys(r) {
      var i :| 0 <= i < |r| && r[i].0 == f;
      GetStored(r, i);
      if f != key {
        GetStored(d, i);
      }
    } else if f != key {
      assert f !in Keys(d);
    }
  }

  /** Entry `k` is the last one of `analog` with its field name. */
  ghost predicate LastWithField(analog: seq<(string, SignalConfig)>, k: nat)
    requires k < |analog|
  {
    forall j :: k < j < |analog| ==> analog[j].1.fieldName != analog[k].1.fieldName
  }

  /** Every entry of `signals` is a signal of `analog` listed under its own field name. */
  ghost predicate EntriesFrom(signals: Dict<Signal>, analog: seq<(string, SignalConfig)>)
  {
    forall i :: 0 <= i < |signals| ==>
      signals[i].1.config.fieldName == signals[i].0 && (signals[i].1.key, signals[i].1.config) in analog
  }

  lemma PutKeepsEntries(d: Dict<Signal>, analog: seq<(string, SignalConfig)>, key: string, config: SignalConfig)
    requires DistinctKeys(d) && EntriesFrom(d, analog) && (key, config) in analog
    ensures EntriesFrom(Put(d, config.fieldName, Signal(key, config)), analog)
  {
  }

  lemma PrefixEntries(d: Dict<Signal>, analog: seq<(string, SignalConfig)>, n: nat)
    requires n <= |analog| && EntriesFrom(d, analog[..n])
    ensures EntriesFrom(d, analog)
  {
    forall i | 0 <= i < |d| ensures (d[i].1.key, d[i].1.config) in analog {
      var j :| 0 <= j < n && analog[..n][j] == (d[i].1.key, d[i].1.config);
      assert analog[j] == analog[..n][j];
    }
  }

  /** Every indexed signal is one of the configured ones, listed under its own field name. */
  lemma {:induction false} IndexedEntries(analog: seq<(string, SignalConfig)>)
    ensures EntriesFrom(IndexSignals(analog), analog)
  {
    if analog != [] {
      var n := |analog| - 1;
      IndexedEntries(analog[..n]);
      var before := IndexSignals(analog[..n]);
      PrefixEntries(before, analog, n);
      var (key, config) := analog[n];
      if config.fieldName != [] {
        assert analog[n] in analog;
        PutKeepsEntries(before, analog, key, config);
        assert IndexSignals(analog) == Put(before, config.fieldName, Signal(key, config));
      } else {
        assert IndexSignals(analog) == before;
      }
    }
  }

  /** A field name maps to the last configured signal that carries it. */
  lemma {:induction false} IndexedLastWins(analog: seq<(string, SignalConfig)>, k: nat)
    requires k < |analog| && analog[k].1.fieldName != [] && LastWithField(analog, k)
    ensures Get(IndexSignals(analog), analog[k].1.fieldName) == Some(Signal(analog[k].0, analog[k].1))
  {
    var n := |analog| - 1;
    if k < n {
      var prefix := analog[..n];
      assert prefix[k] == analog[k];
      forall j | k < j < |prefix| ensures prefix[j].1.fieldName != prefix[k].1.fieldName {
        assert prefix[j] == analog[j];
      }
      IndexedLastWins(prefix, k);
      IndexedKeeps(analog, analog[k].1.fieldName);
      assert Get(IndexSignals(analog), analog[k].1.fieldName) == Some(Signal(analog[k].0, analog[k].1));
    } else {
      IndexedLast(analog);
      assert Get(IndexSignals(analog), analog[k].1.fieldName) == Some(Signal(analog[k].0, analog[k].1));
    }
  }

  /** The last signal indexed is what its field name maps to. */
  lemma IndexedLast(analog: seq<(string, SignalConfig)>)
    requires analog != [] && analog[|analog| - 1].1.fieldName != []
    ensures var (key, config) := analog[|analog| - 1];
      Get(IndexSignals(analog), config.fieldName) == Some(Signal(key, config))
  {
    var (key, config) := analog[|analog| - 1];
    GetAfterPut(IndexSignals(analog[..|analog| - 1]), config.fieldName, Signal(key, config), config.fieldName);
  }

  /** Indexing one more signal leaves the other field names' lookups as they were. */
  lemma IndexedKeeps(analog: seq<(string, SignalConfig)>, field: string)
    requires analog != [] && analog[|analog| - 1].1.fieldName != field
    ensures Get(IndexSignals(analog), field) == Get(IndexSignals(analog[..|analog| - 1]), field)
  {
    var (key, config) := analog[|analog| - 1];
    if config.fieldName != [] {
      GetAfterPut(IndexSignals(analog[..|analog| - 1]), config.fieldName, Signal(key, config), field);
    }
  }

  // ---------------------------------------------------------------------
  // Resolving a signal name
  // ---------------------------------------------------------------------

  /** The first signal listed under `key`. */
  function FindByKey(signals: Dict<Signal>, key: string): (r: Option<(string, Signal)>)
    ensures r.Some? ==> r.value in signals && r.value.1.key == key
    ensures r.None? ==> forall i :: 0 <= i < |signals| ==> signals[i].1.key != key
  {
    if signals == [] then None
    else if signals[0].1.key == key then Some(signals[0])
    else FindByKey(signals[1..], key)
  }

  /** The signals whose field name contains `name`, ignoring case, in order. */
  function PartialMatches(signals: Dict<Signal>, name: string): (r: Dict<Signal>)
    ensures forall m :: m in r <==> m in signals && Contains(Lower(m.0), Lower(name))
  {
    if signals == [] then []
    else
      (if Contains(Lower(signals[0].0), Lower(name)) then [signals[0]] else []) + PartialMatches(signals[1..], name)
  }

  datatype ResolveError = Ambiguous(candidates: seq<string>) | UnknownSignal

  /**
   * `_resolve_signal`: an exact field name, else a signal key, else the
   * only field name containing the name ignoring case; several such
   * fields or none raise an error.
   */
  function ResolveSignal(signals: Dict<Signal>, name: string): Outcome<(string, Signal), ResolveError>
  {
    match Get(signals, name)
    case Some(s) => Pass((name, s))
    case None =>
      match FindByKey(signals, name)
      case Some(found) => Pass(found)
      case None =>
        var matches := PartialMatches(signals, name);
        if |matches| == 1 then Pass(matches[0])
        else if |matches| > 1 then Fail(Ambiguous(seq(|matches|, i requires 0 <= i < |matches| => matches[i].0)))
        else Fail(UnknownSignal)
  }

  /**
   * A resolved signal is always one of the loaded signals; an exact field
   * name always resolves to itself; an ambiguity means two distinct
   * fields match and neither field nor key was exact.
   */
  lemma ResolveSignalMeaning(signals: Dict<Signal>, name: string)
    requires DistinctKeys(signals)
    ensures var r := ResolveSignal(signals, name);
      && (r.Pass? ==> r.value in signals)
      && (name in Keys(signals) ==> r.Pass? && r.value.0 == name)
      && (r.Fail? && r.error.Ambiguous? ==>
            && name !in Keys(signals)
            && (forall i :: 0 <= i < |signals| ==> signals[i].1.key != name)
            && exists i, j :: 0 <= i < j < |signals| && Contains(Lower(signals[i].0), Lower(name))
                              && Contains(Lower(signals[j].0), Lower(name)))
      && (r.Fail? && r.error.UnknownSignal? ==>
            forall i :: 0 <= i < |signals| ==> !Contains(Lower(signals[i].0), Lower(name)))
  {
    var r := ResolveSignal(signals, name);
    var g := Get(signals, name);
    if g.Some? {
      var i :| 0 <= i < |signals| && signals[i] == (name, g.value);
      assert r.value == signals[i];
    }
    if r.Fail? && r.error.Ambiguous? {
      ResolveAmbiguous(signals, name);
    }
    if r.Fail? && r.error.UnknownSignal? {
      ResolveUnknown(signals, name);
    }
  }

  lemma ResolveAmbiguous(signals: Dict<Signal>, name: string)
    requires DistinctKeys(signals)
    requires ResolveSignal(signals, name).Fail? && ResolveSignal(signals, name).error.Ambiguous?
    ensures exists i, j :: 0 <= i < j < |signals| && Contains(Lower(signals[i].0), Lower(name))
                           && Contains(Lower(signals[j].0), Lower(name))
  {
    var matches := PartialMatches(signals, name);
    assert matches[0] in signals && matches[1] in signals;
    var i :| 0 <= i < |signals| && signals[i] == matches[0];
    var j :| 0 <= j < |signals| && signals[j] == matches[1];
    PartialMatchesDistinct(signals, name);
    assert i != j;
    if i < j {
      assert Contains(Lower(signals[i].0), Lower(name)) && Contains(Lower(signals[j].0), Lower(name));
    } else {
      assert Contains(Lower(signals[j].0), Lower(name)) && Contains(Lower(signals[i].0), Lower(name));
    }
  }

  lemma ResolveUnknown(signals: Dict<Signal>, name: string)
    requires ResolveSignal(signals, name).Fail? && ResolveSignal(signals, name).error.UnknownSignal?
    ensures forall i :: 0 <= i < |signals| ==> !Contains(Lower(signals[i].0), Lower(name))
  {
    var matches := PartialMatches(signals, name);
    forall i | 0 <= i < |signals|
      ensures !Contains(Lower(signals[i].0), Lower(name))
    {
      assert signals[i] in signals && signals[i] !in matches;
    }
  }


  lemma {:induction false} PartialMatchesDistinct(signals: Dict<Signal>, name: string)
    requires DistinctKeys(signals)
    ensures DistinctKeys(PartialMatches(signals, name))
  {
    if signals != [] {
      assert DistinctKeys(signals[1..]) by {
        forall i, j | 0 <= i < j < |signals[1..]|
          ensures signals[1..][i].0 != signals[1..][j].0
        {
          assert signals[1..][i] == signals[i + 1] && signals[1..][j] == signals[j + 1];
        }
      }
      PartialMatchesDistinct(signals[1..], name);
      var rest := PartialMatches(signals[1..], name);
      forall m | m in rest
        ensures m.0 != signals[0].0
      {
        var k :| 0 <= k < |signals[1..]| && signals[1..][k] == m;
        assert signals[k + 1] == m;
      }
    }
  }

  /** The first signal listed under `key` is the one found. */
  lemma {:induction false} FindByKeyFirst(signals: Dict<Signal>, key: string, i: nat)
    requires i < |signals| && signals[i].1.key == key
    requires forall j :: 0 <= j < i ==> signals[j].1.key != key
    ensures FindByKey(signals, key) == Some(signals[i])
  {
    if i > 0 {
      assert signals[0].1.key != key;
      forall j | 0 <= j < i - 1 ensures signals[1..][j].1.key != key {
        assert signals[1..][j] == signals[j + 1];
      }
      FindByKeyFirst(signals[1..], key, i - 1);
    }
  }

  /** A name that is no field name but is a signal key resolves to the first signal listed under it. */
  lemma ResolveByKey(signals: Dict<Signal>, name: string, i: nat)
    requires name !in Keys(signals)
    requires i < |signals| && signals[i].1.key == name
    requires forall j :: 0 <= j < i ==> signals[j].1.key != name
    ensures ResolveSignal(signals, name) == Pass(signals[i])
  {
    FindByKeyFirst(signals, name, i);
  }

  /** A name that is neither a field name nor a key resolves only through a single partial match. */
  lemma PartialStage(signals: Dict<Signal>, name: string)
    requires name !in Keys(signals)
    requires forall j :: 0 <= j < |signals| ==> signals[j].1.key != name
    ensures var matches := PartialMatches(signals, name);
      && (|matches| == 1 ==> ResolveSignal(signals, name) == Pass(matches[0]))
      && (|matches| != 1 ==> ResolveSignal(signals, name).Fail?)
  {
    assert FindByKey(signals, name).None?;
  }

  /**
   * A name that is neither a field name nor a key, contained in field `i`
   * and in no other, resolves to that signal.
   */
  lemma ResolveSingleMatch(signals: Dict<Signal>, name: string, i: nat)
    requires name !in Keys(signals)
    requires forall j :: 0 <= j < |signals| ==> signals[j].1.key != name
    requires i < |signals| && Contains(Lower(signals[i].0), Lower(name))
    requires forall j :: 0 <= j < |signals| && j != i ==> !Contains(Lower(signals[j].0), Lower(name))
    ensures ResolveSignal(signals, name) == Pass(signals[i])
  {
    PartialStage(signals, name);
    UniqueMatch(signals, name, i);
  }

  /**
   * Conversely, a name that is neither a field name nor a key and resolves
   * to signal `i` is contained in that field and in no other.
   */
  lemma ResolvedMatchIsSingle(signals: Dict<Signal>, name: string, i: nat)
    requires DistinctKeys(signals) && name !in Keys(signals)
    requires forall j :: 0 <= j < |signals| ==> signals[j].1.key != name
    requires i < |signals| && ResolveSignal(signals, name) == Pass(signals[i])
    ensures Contains(Lower(signals[i].0), Lower(name))
    ensures forall j :: 0 <= j < |signals| && j != i ==> !Contains(Lower(signals[j].0), Lower(name))
  {
    var matches := PartialMatches(signals, name);
    PartialStage(signals, name);
    assert |matches| == 1 && matches[0] == signals[i];
    assert matches == [signals[i]];
    OnlyMatch(signals, name, i);
  }

  /** A field that alone contains the name makes the matches exactly that signal. */
  lemma {:induction false} UniqueMatch(signals: Dict<Signal>, name: string, i: nat)
    requires i < |signals| && Contains(Lower(signals[i].0), Lower(name))
    requires forall j :: 0 <= j < |signals| && j != i ==> !Contains(Lower(signals[j].0), Lower(name))
    ensures PartialMatches(signals, name) == [signals[i]]
  {
    forall j | 0 <= j < |signals[1..]| && j != i - 1 ensures !Contains(Lower(signals[1..][j].0), Lower(name)) {
      assert signals[1..][j] == signals[j + 1];
    }
    if i == 0 {
      NoMatch(signals[1..], name);
    } else {
      assert signals[1..][i - 1] == signals[i];
      UniqueMatch(signals[1..], name, i - 1);
    }
  }

  /** No field containing the name, no matches. */
  lemma {:induction false} NoMatch(signals: Dict<Signal>, name: string)
    requires forall j :: 0 <= j < |signals| ==> !Contains(Lower(signals[j].0), Lower(name))
    ensures PartialMatches(signals, name) == []
  {
    if signals != [] {
      forall j | 0 <= j < |signals[1..]| ensures !Contains(Lower(signals[1..][j].0), Lower(name)) {
        assert signals[1..][j] == signals[j + 1];
      }
      NoMatch(signals[1..], name);
    }
  }

  /** When the matches are the single signal `i`, no other field contains the name. */
  lemma OnlyMatch(signals: Dict<Signal>, name: string, i: nat)
    requires DistinctKeys(signals) && i < |signals|
    requires PartialMatches(signals, name) == [signals[i]]
    ensures forall j :: 0 <= j < |signals| && j != i ==> !Contains(Lower(signals[j].0), Lower(name))
  {
    forall j | 0 <= j < |signals| && j != i ensures !Contains(Lower(signals[j].0), Lower(name)) {
    }
  }

  // ---------------------------------------------------------------------
  // Value limits
  // ---------------------------------------------------------------------

  datatype Limits = Limits(min: real, max: real)

  /** `DEFAULT_LIMITS`. */
  function DefaultLimits(limitKey: string): Option<Limits>
  {
    if limitKey == "heat_curve" then Some(Limits(10.0, 80.0))
    else if limitKey == "parallel_shift" then Some(Limits(-15.0, 15.0))
    else if limitKey == "supply_setpoint" then Some(Limits(15.0, 80.0))
    else if limitKey == "outdoor_x" then Some(Limits(-30.0, 25.0))
    else None
  }

  /** `FIELD_LIMITS`, in its order. */
  const FieldLimits: seq<(string, string)> :=
    [("curve_parallel_shift", "parallel_shift"), ("supply_setpoint", "supply_setpoint"),
     ("hc_y", "heat_curve"), ("hc_x", "outdoor_x")]

  /** `CATEGORY_LIMITS`. */
  function CategoryLimitKey(category: string): Option<string>
  {
    if category == "heat_curve" then Some("heat_curve")
    else if category == "heating" then Some("parallel_shift")
    else None
  }

  /** The limit key of the first field pattern the field name contains. */
  function FieldLimitKey(fieldName: string, patterns: seq<(string, string)>): (r: Option<string>)
    ensures r.Some? <==> exists i :: 0 <= i < |patterns| && Contains(fieldName, patterns[i].0)
    ensures r.Some? ==> exists i :: 0 <= i < |patterns| && r.value == patterns[i].1
  {
    if patterns == [] then None
    else if Contains(fieldName, patterns[0].0) then Some(patterns[0].1)
    else
      var r := FieldLimitKey(fieldName, patterns[1..]);
      assert forall i :: 1 <= i < |patterns| ==> patterns[i] == patterns[1..][i - 1];
      assert r.Some? ==> exists i :: 0 <= i < |patterns[1..]| && r.value == patterns[1..][i].1;
      r
  }

  /** `_get_value_limits`: a field pattern first, then the signal's category. */
  function ValueLimits(fieldName: string, category: string): (l: Option<Limits>)
    ensures l.Some? ==> l.value.min < l.value.max
  {
    match FieldLimitKey(fieldName, FieldLimits)
    case Some(limitKey) => DefaultLimits(limitKey)
    case None =>
      match CategoryLimitKey(category)
      case Some(limitKey) => DefaultLimits(limitKey)
      case None => None
  }

  /**
   * A field pattern takes precedence: a field name containing one gets the
   * same limits whatever its category; otherwise the category decides.
   */
  lemma FieldLimitsTakePrecedence(fieldName: string, category: string, otherCategory: string)
    ensures (exists i :: 0 <= i < |FieldLimits| && Contains(fieldName, FieldLimits[i].0)) ==>
      (ValueLimits(fieldName, category) == ValueLimits(fieldName, otherCategory)
       && ValueLimits(fieldName, category).Some?)
    ensures (forall i :: 0 <= i < |FieldLimits| ==> !Contains(fieldName, FieldLimits[i].0)) ==>
      (ValueLimits(fieldName, category).Some? <==> category == "heat_curve" || category == "heating")
  {
    var r := FieldLimitKey(fieldName, FieldLimits);
    if r.Some? {
      var i :| 0 <= i < |FieldLimits| && r.value == FieldLimits[i].1;
      assert i == 0 || i == 1 || i == 2 || i == 3;
      var j :| 0 <= j < |FieldLimits| && Contains(fieldName, FieldLimits[j].0);
    }
  }

  // ---------------------------------------------------------------------
  // Writes
  // ---------------------------------------------------------------------

  /** Why a write was refused before anything was sent. */
  datatype Refusal = Unresolved(why: ResolveError) | NotWritable(field: string) | OutOfRange(field: string, limits: Limits)

  /**
   * The safety checks of `write_value`: the signal resolves, it is on the
   * write whitelist, and the value lies within its limits.
   */
  function VetWrite(signals: Dict<Signal>, writable: set<string>, name: string, value: real)
    : (r: Outcome<(string, Signal), Refusal>)
    ensures r.Pass? ==> r.value.0 in writable
    ensures r.Pass? ==> var l := ValueLimits(r.value.0, r.value.1.config.category);
      l.Some? ==> l.value.min <= value <= l.value.max
    ensures r.Pass? ==> ResolveSignal(signals, name) == Pass(r.value)
  {
    match ResolveSignal(signals, name)
    case Fail(e) => Fail(Unresolved(e))
    case Pass((field, signal)) =>
      if field !in writable then Fail(NotWritable(field))
      else
        var limits := ValueLimits(field, signal.config.category);
        if limits.Some? && (value < limits.value.min || value > limits.value.max) then
          Fail(OutOfRange(field, limits.value))
        else Pass((field, signal))
  }

  /** A write the whitelist and the limits allow is never refused. */
  lemma VetWriteComplete(signals: Dict<Signal>, writable: set<string>, name: string, value: real)
    requires ResolveSignal(signals, name).Pass?
    requires var (field, signal) := ResolveSignal(signals, name).value;
      && field in writable
      && var l := ValueLimits(field, signal.config.category); l.Some? ==> l.value.min <= value <= l.value.max
    ensures VetWrite(signals, writable, name, value).Pass?
  {
  }

  /** One audit-log entry; `result` is `None` for a dry run. */
  datatype AuditEntry = AuditEntry(timestamp: int, buildingId: string, fieldName: string, signalPath: string,
                                   value: real, dryRun: bool, result: Option<bool>)

  /** What `write_value` reports. */
  datatype WriteResult = Refused(refusal: Refusal) | DryRun(field: string, value: real) | Sent(success: bool)

  const VerifyTolerance := 0.1

  /** The read-back check of `write_and_verify`. */
  predicate ReadbackMatches(readback: Option<real>, target: real)
  {
    readback.Some? && Abs(readback.value - target) < VerifyTolerance
  }

  /**
   * Reading back exactly the written value verifies, a missing value never
   * does, and a match bounds the read-back value on both sides.
   */
  lemma ReadbackMatchesMeaning(readback: Option<real>, target: real)
    ensures ReadbackMatches(Some(target), target)
    ensures !ReadbackMatches(None, target)
    ensures ReadbackMatches(readback, target) ==>
      target - VerifyTolerance < readback.value < target + VerifyTolerance
  {
  }

  class EboController {
    const buildingId: string
    const dryRun: bool
    const signals: Dict<Signal>
    const writable: set<string>
    var auditLog: seq<AuditEntry>

    constructor (buildingId: string, dryRun: bool, analog: seq<(string, SignalConfig)>)
      ensures this.buildingId == buildingId && this.dryRun == dryRun
      ensures (signals, writable) == LoadSignals(analog) && auditLog == []
    {
      this.buildingId := buildingId;
      this.dryRun := dryRun;
      var (s, w) := LoadSignals(analog);
      signals := s;
      writable := w;
      auditLog := [];
    }

    /**
     * `write_value` at time `now`; `apiAccepts` is the API's answer if a
     * property write is sent. `sent` is the write sent to the API, if any.
     */
    method WriteValue(name: string, value: real, now: int, apiAccepts: bool)
      returns (result: WriteResult, sent: Option<(string, real)>)
      modifies this
      ensures VetWrite(signals, writable, name, value).Fail? ==>
        result == Refused(VetWrite(signals, writable, name, value).error) && sent.None?
        && auditLog == old(auditLog)
      ensures VetWrite(signals, writable, name, value).Pass? ==>
        var (field, signal) := VetWrite(signals, writable, name, value).value;
        && (dryRun ==> result == DryRun(field, value) && sent.None?
                       && auditLog == old(auditLog) + [AuditEntry(now, buildingId, field, signal.config.signalId,
                                                                   value, true, None)])
        && (!dryRun ==> result == Sent(apiAccepts) && sent == Some((signal.config.signalId, value))
                        && auditLog == old(auditLog) + [AuditEntry(now, buildingId, field, signal.config.signalId,
                                                                    value, false, Some(apiAccepts))])
    {
      var vetted := VetWrite(signals, writable, name, value);
      if vetted.Fail? {
        return Refused(vetted.error), None;
      }
      var (field, signal) := vetted.value;
      var entry := AuditEntry(now, buildingId, field, signal.config.signalId, value, dryRun, None);
      if dryRun {
        auditLog := auditLog + [entry];
        return DryRun(field, value), None;
      }
      sent := Some((signal.config.signalId, value));
      auditLog := auditLog + [entry.(result := Some(apiAccepts))];
      result := Sent(apiAccepts);
    }

    /**
     * `write_and_verify`: the write, and when it was actually sent and
     * accepted, whether the value read back matches the target.
     */
    method WriteAndVerify(name: string, value: real, now: int, apiAccepts: bool, readback: Option<real>)
      returns (result: WriteResult, sent: Option<(string, real)>, verified: Option<bool>)
      modifies this
      ensures VetWrite(signals, writable, name, value).Fail? ==>
        result == Refused(VetWrite(signals, writable, name, value).error) && sent.None?
        && auditLog == old(auditLog)
      ensures VetWrite(signals, writable, name, value).Pass? ==>
        var (field, signal) := VetWrite(signals, writable, name, value).value;
        && (dryRun ==> result == DryRun(field, value) && sent.None?
                       && auditLog == old(auditLog) + [AuditEntry(now, buildingId, field, signal.config.signalId,
                                                                   value, true, None)])
        && (!dryRun ==> result == Sent(apiAccepts) && sent == Some((signal.config.signalId, value))
                        && auditLog == old(auditLog) + [AuditEntry(now, buildingId, field, signal.config.signalId,
                                                                    value, false, Some(apiAccepts))])
      ensures verified.Some? <==> result == Sent(true)
      ensures verified.Some? ==> (verified.value <==> ReadbackMatches(readback, value))
    {
      result, sent := WriteValue(name, value, now, apiAccepts);
      if result != Sent(true) {
        return result, sent, None;
      }
      verified := Some(readback.Some? && Abs(readback.value - value) < VerifyTolerance);
    }
  }
}
