/**
 * The weather value types of the domain: `Temperature`, `WindSpeed`, `CurrentWeather`
 * and `WeatherData`. The first two are records whose compact constructors guard their
 * double; the other two are plain records that accept null components.
 */
module WeatherModel {
  import opened JavaLang
  import opened GeoCoordinates

  /** A constructed `Temperature`: any finite number of degrees Celsius, without bounds. */
  datatype Temperature = Temperature(celsius: real)

  const TemperatureNotANumber: string := "Temperature must be a valid number"

  /** `Temperature.ofCelsius`: NaN and both infinities are refused; every finite value is kept as given. */
  function OfCelsius(x: Double): (r: Result<Temperature, Exception>)
    ensures r.Ok? <==> x.Finite?
    ensures r.Ok? ==> r.value.celsius == x.value
    ensures r.Err? ==> r.error == IllegalArgumentException(TemperatureNotANumber)
  {
    match x
    case Finite(v) => Ok(Temperature(v))
    case _ => Err(IllegalArgumentException(TemperatureNotANumber))
  }

  /** Two accepted temperatures are equal exactly when the doubles they were built from are. */
  lemma OfCelsiusInjective(x: Double, y: Double)
    requires OfCelsius(x).Ok? && OfCelsius(y).Ok?
    ensures OfCelsius(x).value == OfCelsius(y).value <==> x == y
  {
  }

  /** No physical bound: absolute zero and a thousand degrees are both temperatures. */
  lemma OfCelsiusUnbounded()
    ensures OfCelsius(Finite(-273.15)) == Ok(Temperature(-273.15))
    ensures OfCelsius(Finite(1000.0)) == Ok(Temperature(1000.0))
    ensures OfCelsius(NegInf).Err? && OfCelsius(PosInf).Err? && OfCelsius(NaN).Err?
  {
  }

  type NonNegativeReal = x: real | 0.0 <= x

  /** A constructed `WindSpeed`: a finite, non-negative number of km/h. */
  datatype WindSpeed = WindSpeed(kmh: NonNegativeReal)

  const WindSpeedNotANumber: string := "Wind speed must be a valid number"
  const WindSpeedNegative: string := "Wind speed cannot be negative"

  /** `WindSpeed.ofKmh`: finiteness is checked before the sign, so -Infinity is reported as
      not a number; zero and every finite positive value are kept as given. */
  function OfKmh(x: Double): (r: Result<WindSpeed, Exception>)
    ensures r.Ok? <==> x.Finite? && 0.0 <= x.value
    ensures r.Ok? ==> r.value.kmh == x.value
    ensures !x.Finite? ==> r == Err(IllegalArgumentException(WindSpeedNotANumber))
    ensures x.Finite? && x.value < 0.0 ==> r == Err(IllegalArgumentException(WindSpeedNegative))
  {
    match x
    case Finite(v) =>
      if v < 0.0 then Err(IllegalArgumentException(WindSpeedNegative)) else Ok(WindSpeed(v))
    case _ => Err(IllegalArgumentException(WindSpeedNotANumber))
  }

  /** Two accepted wind speeds are equal exactly when the doubles they were built from are. */
  lemma OfKmhInjective(x: Double, y: Double)
    requires OfKmh(x).Ok? && OfKmh(y).Ok?
    ensures OfKmh(x).value == OfKmh(y).value <==> x == y
  {
  }

  /** -0.1 is negative, -Infinity is not a number, 0 is calm air. */
  lemma OfKmhExamples()
    ensures OfKmh(Finite(-0.1)) == Err(IllegalArgumentException(WindSpeedNegative))
    ensures OfKmh(NegInf) == Err(IllegalArgumentException(WindSpeedNotANumber))
    ensures OfKmh(Finite(0.0)) == Ok(WindSpeed(0.0))
  {
  }

  /** A `CurrentWeather`: either component may be null; nothing is validated here. */
  datatype CurrentWeather = CurrentWeather(temperature: Option<Temperature>, windSpeed: Option<WindSpeed>)

  /** The data source recorded by both `WeatherData.of` factories. */
  const DefaultSource: string := "open-meteo"

  /** A `WeatherData` record: location and current weather may be null; the source is any string. */
  datatype WeatherData = WeatherData(
    location: Option<Coordinates>,
    currentWeather: Option<CurrentWeather>,
    source: string,
    retrievedAt: Instant)

  /** `WeatherData.of(location, currentWeather, retrievedAt)`; the two-argument factory is this
      one with the clock reading as `retrievedAt`. Source is the default one, and every
      other field is stored unchanged, whatever the time. */
  function WeatherDataOf(location: Option<Coordinates>, currentWeather: Option<CurrentWeather>, retrievedAt: Instant)
    : (d: WeatherData)
    ensures d.source == DefaultSource
    ensures d.location == location && d.currentWeather == currentWeather && d.retrievedAt == retrievedAt
  {
    WeatherData(location, currentWeather, DefaultSource, retrievedAt)
  }

  /** `Objects.equals` on two nullable coordinates, where `Coordinates.equals` compares keys. */
  predicate SameLocation(a: Option<Coordinates>, b: Option<Coordinates>) {
    match (a, b)
    case (None, None) => true
    case (Some(x), Some(y)) => Equal(x, y)
    case _ => false
  }

  /** The record `equals` of `WeatherData`: all four components, the location by cache key. */
  predicate SameWeatherData(a: WeatherData, b: WeatherData) {
    && SameLocation(a.location, b.location)
    && a.currentWeather == b.currentWeather
    && a.source == b.source
    && a.retrievedAt == b.retrievedAt
  }

  /** `equals` on WeatherData is an equivalence. */
  lemma SameWeatherDataEquivalence(a: WeatherData, b: WeatherData, c: WeatherData)
    ensures SameWeatherData(a, a)
    ensures SameWeatherData(a, b) ==> SameWeatherData(b, a)
    ensures SameWeatherData(a, b) && SameWeatherData(b, c) ==> SameWeatherData(a, c)
  {
  }

  /** Two records built from locations with one key and the same other components are equal,
      and a record that differs from another in any non-location component is not. */
  lemma SameWeatherDataByKey(x: Coordinates, y: Coordinates, w: Option<CurrentWeather>, v: Option<CurrentWeather>, t: Instant, u: Instant)
    ensures SameWeatherData(WeatherDataOf(Some(x), w, t), WeatherDataOf(Some(y), v, u))
      <==> LatitudeHundredths(x) == LatitudeHundredths(y) && LongitudeHundredths(x) == LongitudeHundredths(y) && w == v && t == u
  {
    EqualIffSameNormalized(x, y);
  }
}
