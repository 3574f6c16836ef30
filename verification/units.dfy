/** The unit conversions of the weather utilities, on exact reals. */
module Units {

  /** `celsiusToFahrenheit`: `(c * 9) / 5 + 32`. */
  function CelsiusToFahrenheit(celsius: real): real
  {
    (celsius * 9.0) / 5.0 + 32.0
  }

  /** `msToKmh`: metres per second to kilometres per hour. */
  function MsToKmh(ms: real): real
  {
    ms * 3.6
  }

  /** The inverse conversion, used only to state the round trip. */
  function FahrenheitToCelsius(fahrenheit: real): real
  {
    (fahrenheit - 32.0) * 5.0 / 9.0
  }

  /** The conversion loses nothing: Fahrenheit converts back to the same Celsius, and
      every Fahrenheit reading is the image of exactly one Celsius reading. */
  lemma FahrenheitRoundTrip(celsius: real, fahrenheit: real)
    ensures FahrenheitToCelsius(CelsiusToFahrenheit(celsius)) == celsius
    ensures CelsiusToFahrenheit(FahrenheitToCelsius(fahrenheit)) == fahrenheit
  {
  }

  /** Warmer in Celsius is warmer in Fahrenheit, and the familiar anchor points hold;
      -40 is the one reading both scales share. */
  lemma FahrenheitScale(a: real, b: real)
    ensures a < b ==> CelsiusToFahrenheit(a) < CelsiusToFahrenheit(b)
    ensures CelsiusToFahrenheit(0.0) == 32.0
    ensures CelsiusToFahrenheit(100.0) == 212.0
    ensures CelsiusToFahrenheit(a) == a <==> a == -40.0
  {
  }

  /** Wind speeds keep their order, standing air stays at zero, and the map is linear. */
  lemma KmhScale(a: real, b: real)
    ensures a <= b ==> MsToKmh(a) <= MsToKmh(b)
    ensures a < b ==> MsToKmh(a) < MsToKmh(b)
    ensures MsToKmh(0.0) == 0.0
    ensures MsToKmh(a + b) == MsToKmh(a) + MsToKmh(b)
    ensures MsToKmh(10.0) == 36.0
  {
  }
}
