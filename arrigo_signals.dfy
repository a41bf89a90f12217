/**
 * Selecting the signals an Arrigo building fetches: from the analog and
 * digital signal tables of a building configuration, the signals marked
 * `fetch`, each with its id, field name, unit and category.
 */
module ArrigoSignals {
  import opened Common

  const DefaultCategory := "other"

  /**
   * A signal entry of the building configuration.  `fetch` is the
   * truthiness of the entry's `fetch` value; `signal_id` may be missing.
   * Each optional field is None when its key is absent; a key present
   * with a JSON null is read the same way, whereas the Python code would
   * keep the null (a null `signal_id`, `unit`, `category` or `min_value`
   * is not distinguished from an absent one).
   */
  datatype SignalConfig = SignalConfig(
    signalId: Option<string>, fetch: bool, fieldName: Option<string>, unit: Option<string>,
    category: Option<string>, minValue: Option<real>)

  /** An absent signal table reads as empty. */
  datatype BuildingConfig = BuildingConfig(
    analogSignals: Option<map<string, SignalConfig>>, digitalSignals: Option<map<string, SignalConfig>>)

  /** One entry of a fetch map; digital entries never carry a minimum. */
  datatype FetchEntry = FetchEntry(signalId: string, fieldName: string, unit: string, category: string,
                                   minValue: Option<real>)

  function TableOf(t: Option<map<string, SignalConfig>>): map<string, SignalConfig>
  {
    match t
    case Some(m) => m
    case None => map[]
  }

  function OrElse(x: Option<string>, d: string): string
  {
    match x
    case Some(v) => v
    case None => d
  }

  /** `field_name or name`: an absent or empty field name falls back to the signal's name. */
  function FieldNameOr(x: Option<string>, name: string): string
  {
    match x
    case Some(v) => if v == "" then name else v
    case None => name
  }

  /** Every fetched signal has an id: otherwise the lookup of `signal_id` fails. */
  predicate FetchedHaveIds(signals: map<string, SignalConfig>)
  {
    forall name :: name in signals && signals[name].fetch ==> signals[name].signalId.Some?
  }

  /**
   * The fetch map of one table: exactly the signals marked `fetch`; the
   * field name falls back to the signal's name, the unit to empty, the
   * category to "other"; a minimum is kept only for analog signals that
   * have one.
   */
  function FetchMap(signals: map<string, SignalConfig>, analog: bool): (r: Result<map<string, FetchEntry>>)
    ensures r.Ok? <==> FetchedHaveIds(signals)
    ensures r.Ok? ==> forall name :: name in r.value <==> name in signals && signals[name].fetch
    ensures r.Ok? ==> forall name :: name in r.value ==>
      var sig := signals[name];
      && Some(r.value[name].signalId) == sig.signalId
      && r.value[name].fieldName == (if sig.fieldName.Some? && sig.fieldName.value != "" then sig.fieldName.value else name)
      && r.value[name].unit == (if sig.unit.Some? then sig.unit.value else "")
      && r.value[name].category == (if sig.category.Some? then sig.category.value else DefaultCategory)
      && (r.value[name].minValue.Some? <==> analog && sig.minValue.Some?)
      && (r.value[name].minValue.Some? ==> r.value[name].minValue == sig.minValue)
  {
    if !FetchedHaveIds(signals) then Err("signal_id")
    else
      Ok(map name | name in signals && signals[name].fetch ::
           Entry(name, signals[name], analog))
  }

  function Entry(name: string, sig: SignalConfig, analog: bool): FetchEntry
    requires sig.signalId.Some?
  {
    FetchEntry(sig.signalId.value, FieldNameOr(sig.fieldName, name), OrElse(sig.unit, ""),
               OrElse(sig.category, DefaultCategory), if analog then sig.minValue else None)
  }

  /** One loop of `get_fetch_signals`: visits every signal of a table and keeps the fetched ones. */
  method CollectFetched(signals: map<string, SignalConfig>, analog: bool) returns (r: Result<map<string, FetchEntry>>)
    ensures r == FetchMap(signals, analog)
  {
    var remaining := signals.Keys;
    var fetched: map<string, FetchEntry> := map[];
    while remaining != {}
      invariant remaining <= signals.Keys
      invariant forall name :: name in signals.Keys - remaining && signals[name].fetch ==> signals[name].signalId.Some?
      invariant forall name :: name in fetched <==> name in signals.Keys - remaining && signals[name].fetch
      invariant forall name :: name in fetched ==> fetched[name] == Entry(name, signals[name], analog)
      decreases |remaining|
    {
      var name :| name in remaining;
      var sig := signals[name];
      if sig.fetch {
        if sig.signalId.None? {
          return Err("signal_id");
        }
        fetched := fetched[name := Entry(name, sig, analog)];
      }
      remaining := remaining - {name};
    }
    r := Ok(fetched);
    assert fetched == map name | name in signals && signals[name].fetch :: Entry(name, signals[name], analog);
  }

  /** `get_fetch_signals`: the analog and the digital fetch maps. */
  method GetFetchSignals(config: BuildingConfig)
    returns (r: Result<(map<string, FetchEntry>, map<string, FetchEntry>)>)
    ensures r.Ok? <==> FetchedHaveIds(TableOf(config.analogSignals)) && FetchedHaveIds(TableOf(config.digitalSignals))
    ensures r.Ok? ==>
      && Ok(r.value.0) == FetchMap(TableOf(config.analogSignals), true)
      && Ok(r.value.1) == FetchMap(TableOf(config.digitalSignals), false)
  {
    var analog := CollectFetched(TableOf(config.analogSignals), true);
    if analog.Err? {
      return Err(analog.error);
    }
    var digital := CollectFetched(TableOf(config.digitalSignals), false);
    if digital.Err? {
      return Err(digital.error);
    }
    r := Ok((analog.value, digital.value));
  }

  /** Clearing a signal's `fetch` flag drops it from the fetch map and leaves the other entries alone. */
  lemma UnflaggingRemovesOnlyThatSignal(signals: map<string, SignalConfig>, name: string, analog: bool)
    requires name in signals && FetchedHaveIds(signals)
    ensures var after := signals[name := signals[name].(fetch := false)];
      && FetchMap(after, analog).Ok?
      && FetchMap(after, analog).value == FetchMap(signals, analog).value - {name}
  {
    var after := signals[name := signals[name].(fetch := false)];
    var a := FetchMap(after, analog).value;
    var b := FetchMap(signals, analog).value - {name};
    assert a.Keys == b.Keys;
    forall n | n in a ensures a[n] == b[n] {
      assert after[n] == signals[n];
    }
  }
}
