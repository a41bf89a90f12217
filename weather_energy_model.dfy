/**
 * The weather energy model's utilities: heating degree hours, the heating
 * energy a building with a given heat-loss coefficient needs, and the
 * factory that hands out weather models, caching the default one.
 */
module WeatherEnergy {
  import opened Common

  /**
   * `calculate_heating_degree_hours`: how far the effective temperature is
   * below the base temperature, times the hours; nothing at or above it.
   */
  function HeatingDegreeHours(effectiveTemp: real, baseTemp: real, hours: real): (hdh: real)
    ensures effectiveTemp >= baseTemp ==> hdh == 0.0
    ensures effectiveTemp < baseTemp ==> hdh == (baseTemp - effectiveTemp) * hours
  {
    if effectiveTemp >= baseTemp then 0.0 else (baseTemp - effectiveTemp) * hours
  }

  /**
   * Heating degree hours are never negative over a non-negative span, and
   * over a positive span they are zero exactly when the effective
   * temperature has reached the base temperature.
   */
  lemma HeatingDegreeHoursMeaning(effectiveTemp: real, baseTemp: real, hours: real)
    ensures hours >= 0.0 ==> HeatingDegreeHours(effectiveTemp, baseTemp, hours) >= 0.0
    ensures hours > 0.0 ==> (HeatingDegreeHours(effectiveTemp, baseTemp, hours) == 0.0 <==> effectiveTemp >= baseTemp)
  {
    if effectiveTemp < baseTemp && hours >= 0.0 {
      ProductNonNegative(baseTemp - effectiveTemp, hours);
      if hours > 0.0 {
        var d := baseTemp - effectiveTemp;
        ProductPositive(d, hours);
        assert HeatingDegreeHours(effectiveTemp, baseTemp, hours) == d * hours;
      }
    }
  }

  const DefaultBaseTemp := 17.0
  const DefaultIndoorTemp := 21.0

  /**
   * `estimate_heating_energy`: the heat-loss coefficient times the
   * temperature difference to indoors (none when it is warmer outside),
   * times the hours.
   */
  function EstimateHeatingEnergy(effectiveTemp: real, heatLossCoefficient: real, indoorTemp: real,
                                 hours: real): (kwh: real)
    ensures effectiveTemp >= indoorTemp ==> kwh == 0.0
  {
    heatLossCoefficient * Max(0.0, indoorTemp - effectiveTemp) * hours
  }

  /** With a non-negative coefficient and span the estimate is never negative. */
  lemma EstimateNonNegative(effectiveTemp: real, heatLossCoefficient: real, indoorTemp: real, hours: real)
    requires heatLossCoefficient >= 0.0 && hours >= 0.0
    ensures EstimateHeatingEnergy(effectiveTemp, heatLossCoefficient, indoorTemp, hours) >= 0.0
  {
    var deltaT := Max(0.0, indoorTemp - effectiveTemp);
    ProductNonNegative(heatLossCoefficient, deltaT);
    ProductNonNegative(heatLossCoefficient * deltaT, hours);
  }

  /**
   * The energy estimate is the heat-loss coefficient times the heating
   * degree hours measured against the indoor temperature.
   */
  lemma EnergyIsCoefficientTimesDegreeHours(effectiveTemp: real, heatLossCoefficient: real, indoorTemp: real,
                                            hours: real)
    ensures EstimateHeatingEnergy(effectiveTemp, heatLossCoefficient, indoorTemp, hours)
      == heatLossCoefficient * HeatingDegreeHours(effectiveTemp, indoorTemp, hours)
  {
    if effectiveTemp < indoorTemp {
      assert heatLossCoefficient * (indoorTemp - effectiveTemp) * hours
        == heatLossCoefficient * ((indoorTemp - effectiveTemp) * hours);
    }
  }

  /** A colder effective temperature never needs less energy. */
  lemma ColderNeedsMoreEnergy(colder: real, warmer: real, heatLossCoefficient: real, indoorTemp: real,
                              hours: real)
    requires colder <= warmer && heatLossCoefficient >= 0.0 && hours >= 0.0
    ensures EstimateHeatingEnergy(colder, heatLossCoefficient, indoorTemp, hours)
      >= EstimateHeatingEnergy(warmer, heatLossCoefficient, indoorTemp, hours)
  {
    var dc := Max(0.0, indoorTemp - colder);
    var dw := Max(0.0, indoorTemp - warmer);
    assert dc >= dw;
    ProductNonNegative(heatLossCoefficient, dc - dw);
    assert heatLossCoefficient * (dc - dw) == heatLossCoefficient * dc - heatLossCoefficient * dw;
    ProductNonNegative(heatLossCoefficient * dc - heatLossCoefficient * dw, hours);
    assert (heatLossCoefficient * dc - heatLossCoefficient * dw) * hours
      == heatLossCoefficient * dc * hours - heatLossCoefficient * dw * hours;
  }

  // ---------------------------------------------------------------------
  // Model factory
  // ---------------------------------------------------------------------

  const DefaultWindCoefficient := 0.56
  const DefaultHumidityCoefficient := 0.01
  const DefaultSolarCoefficient := 6.0

  /** The empirical model: fixed wind, humidity and solar coefficients. */
  class SimpleWeatherModel {
    const windCoefficient: real
    const humidityCoefficient: real
    const solarCoefficient: real

    constructor (wind: real, humidity: real, solar: real)
      ensures windCoefficient == wind && humidityCoefficient == humidity && solarCoefficient == solar
    {
      windCoefficient := wind;
      humidityCoefficient := humidity;
      solarCoefficient := solar;
    }
  }

  /** A model whose coefficients were calibrated for one building. */
  class CalibratedWeatherModel {
    const buildingId: string
    const windCoefficient: real
    const humidityCoefficient: real
    const solarCoefficient: real
    const calibrationDate: Option<int>
    const calibrationError: Option<real>

    constructor (buildingId: string, wind: real, humidity: real, solar: real,
                 calibrationDate: Option<int>, calibrationError: Option<real>)
      ensures this.buildingId == buildingId
      ensures windCoefficient == wind && humidityCoefficient == humidity && solarCoefficient == solar
      ensures this.calibrationDate == calibrationDate && this.calibrationError == calibrationError
    {
      this.buildingId := buildingId;
      windCoefficient := wind;
      humidityCoefficient := humidity;
      solarCoefficient := solar;
      this.calibrationDate := calibrationDate;
      this.calibrationError := calibrationError;
    }
  }

  datatype WeatherModel = Simple(simple: SimpleWeatherModel) | Calibrated(calibrated: CalibratedWeatherModel)

  /** The keyword arguments of `get_weather_model`; an absent one is `None`. */
  datatype ModelArgs = ModelArgs(
    buildingId: Option<string>, windCoefficient: Option<real>, humidityCoefficient: Option<real>,
    solarCoefficient: Option<real>, calibrationDate: Option<int>, calibrationError: Option<real>)

  const NoArgs := ModelArgs(None, None, None, None, None, None)

  function OrDefault(x: Option<real>, d: real): real
  {
    match x
    case Some(v) => v
    case None => d
  }

  /** The simple model accepts only the three coefficients. */
  predicate SimpleArgsOnly(args: ModelArgs)
  {
    args.buildingId.None? && args.calibrationDate.None? && args.calibrationError.None?
  }

  /** The process-wide cache of the default simple model. */
  class ModelFactory {
    var defaultModel: Option<SimpleWeatherModel>

    constructor ()
      ensures defaultModel.None?
    {
      defaultModel := None;
    }

    /**
     * `get_weather_model`: 'simple' without arguments returns the cached
     * default model, creating and caching it on first use; 'simple' with
     * coefficients builds a new model and leaves the cache alone;
     * 'calibrated' needs a building id; any other type is an error.
     */
    method GetWeatherModel(modelType: string, args: ModelArgs) returns (r: Result<WeatherModel>)
      modifies this
      ensures modelType == "simple" && args == NoArgs && old(defaultModel).Some? ==>
        r == Ok(Simple(old(defaultModel).value)) && defaultModel == old(defaultModel)
      ensures modelType == "simple" && args == NoArgs && old(defaultModel).None? ==>
        && r.Ok? && r.value.Simple? && fresh(r.value.simple)
        && r.value.simple.windCoefficient == DefaultWindCoefficient
        && r.value.simple.humidityCoefficient == DefaultHumidityCoefficient
        && r.value.simple.solarCoefficient == DefaultSolarCoefficient
        && defaultModel == Some(r.value.simple)
      ensures modelType == "simple" && args != NoArgs ==>
        && defaultModel == old(defaultModel)
        && (SimpleArgsOnly(args) <==> r.Ok?)
        && (r.Ok? ==>
              (&& r.value.Simple? && fresh(r.value.simple)
               && r.value.simple.windCoefficient == OrDefault(args.windCoefficient, DefaultWindCoefficient)
               && r.value.simple.humidityCoefficient == OrDefault(args.humidityCoefficient, DefaultHumidityCoefficient)
               && r.value.simple.solarCoefficient == OrDefault(args.solarCoefficient, DefaultSolarCoefficient)))
      ensures modelType == "calibrated" ==>
        && defaultModel == old(defaultModel)
        && (args.buildingId.None? <==> r.Err?)
        && (r.Ok? ==>
              (&& r.value.Calibrated? && fresh(r.value.calibrated)
               && r.value.calibrated.buildingId == args.buildingId.value
               && r.value.calibrated.windCoefficient == OrDefault(args.windCoefficient, DefaultWindCoefficient)
               && r.value.calibrated.calibrationDate == args.calibrationDate))
      ensures modelType != "simple" && modelType != "calibrated" ==>
        r.Err? && defaultModel == old(defaultModel)
    {
      if modelType == "simple" {
        if args == NoArgs && defaultModel.Some? {
          return Ok(Simple(defaultModel.value));
        }
        if !SimpleArgsOnly(args) {
          return Err("unexpected keyword argument for SimpleWeatherModel");
        }
        var model := new SimpleWeatherModel(OrDefault(args.windCoefficient, DefaultWindCoefficient),
                                            OrDefault(args.humidityCoefficient, DefaultHumidityCoefficient),
                                            OrDefault(args.solarCoefficient, DefaultSolarCoefficient));
        if args == NoArgs {
          defaultModel := Some(model);
        }
        return Ok(Simple(model));
      } else if modelType == "calibrated" {
        if args.buildingId.None? {
          return Err("building_id required for calibrated model");
        }
        var model := new CalibratedWeatherModel(args.buildingId.value,
                                                OrDefault(args.windCoefficient, DefaultWindCoefficient),
                                                OrDefault(args.humidityCoefficient, DefaultHumidityCoefficient),
                                                OrDefault(args.solarCoefficient, DefaultSolarCoefficient),
                                                args.calibrationDate, args.calibrationError);
        return Ok(Calibrated(model));
      } else {
        return Err("Unknown model type: " + modelType);
      }
    }
  }

  /** Two argument-less requests for the simple model return the same instance. */
  method DefaultModelIsShared(factory: ModelFactory) returns (first: WeatherModel, second: WeatherModel)
    modifies factory
    ensures first == second && first.Simple?
  {
    var r1 := factory.GetWeatherModel("simple", NoArgs);
    var r2 := factory.GetWeatherModel("simple", NoArgs);
    first := r1.value;
    second := r2.value;
  }
}
