/**
 * The numeric helpers of the weather utilities: compass buckets for wind
 * direction, the day/night test and the Celsius to Fahrenheit conversion,
 * over exact reals and integers rather than IEEE doubles.
 */
module WeatherUtils {
  import opened Wrappers

  /** The eight compass points, clockwise from north. */
  const Directions: seq<string> := ["N", "NE", "E", "SE", "S", "SW", "W", "NW"]

  /** JavaScript's truncation toward zero, as used by its `%` operator. */
  function Trunc(x: real): int
  {
    if x >= 0.0 then x.Floor else -((-x).Floor)
  }

  /** JavaScript's `x % 360` on numbers: the remainder takes the sign of `x`. */
  function JsRem360(x: real): (r: real)
    ensures x >= 0.0 ==> 0.0 <= r < 360.0
    ensures x < 0.0 ==> -360.0 < r <= 0.0
    // `x` and the result are a whole number of turns apart
    ensures ((x - r) / 360.0).Floor as real == (x - r) / 360.0
  {
    var turns := Trunc(x / 360.0);
    var r := x - 360.0 * (turns as real);
    assert x - r == 360.0 * (turns as real);
    assert (x - r) / 360.0 == turns as real;
    assert (turns as real).Floor == turns;
    r
  }

  /** `Math.round`: halves round up. */
  function JsRound(x: real): (n: int)
    ensures n as real - 0.5 <= x < n as real + 0.5
  {
    (x + 0.5).Floor
  }

  /** JavaScript's `n % 8` on integral numbers: the remainder takes the sign of `n`. */
  function JsRem8(n: int): (r: int)
    ensures n >= 0 ==> 0 <= r < 8
    ensures n < 0 ==> -8 < r <= 0
    // `n` and the result are a whole multiple of 8 apart
    ensures (n - r) % 8 == 0
  {
    if n >= 0 then n % 8 else -((-n) % 8)
  }

  /** The index `Math.round(degrees % 360 / 45) % 8`, exactly as computed. */
  function WindIndexAsWritten(degrees: real): (i: int)
    ensures -8 < i < 8
    ensures degrees >= 0.0 ==> 0 <= i
  {
    JsRem8(JsRound(JsRem360(degrees) / 45.0))
  }

  /** `directions[index]` as written: `None` stands for `undefined`, read past the array's start. */
  function WindDirectionAsWritten(degrees: real): (r: Option<string>)
    ensures degrees >= 0.0 ==> r.Some? && r.value in Directions
  {
    var i := WindIndexAsWritten(degrees);
    if 0 <= i < 8 then Some(Directions[i]) else None
  }

  /** A bearing of -90 degrees (which is west) gives index -2, so no label at all. */
  lemma NegativeBearingHasNoLabel()
    ensures WindIndexAsWritten(-90.0) == -2
    ensures WindDirectionAsWritten(-90.0) == None
  {
    assert JsRem360(-90.0) == -90.0;
    assert JsRound(-90.0 / 45.0) == -2;
  }

  /** The compass index with the bearing first reduced into [0, 360). */
  function WindIndex(degrees: real): (i: int)
    ensures 0 <= i < 8
    ensures degrees >= 0.0 ==> i == WindIndexAsWritten(degrees)
  {
    var reduced := degrees - 360.0 * ((degrees / 360.0).Floor as real);
    JsRound(reduced / 45.0) % 8
  }

  /** `getWindDirection`: always one of the eight labels. */
  function WindDirection(degrees: real): (r: string)
    ensures r in Directions
    ensures degrees >= 0.0 ==> WindDirectionAsWritten(degrees) == Some(r)
  {
    Directions[WindIndex(degrees)]
  }

  /**
   * Within one turn, sector i is the 45-degree slice centred on 45 * i; its
   * lower edge belongs to it (halves round up) and its upper edge does not.
   */
  lemma WindSector(degrees: real, i: int)
    requires 0.0 <= degrees < 360.0 && 0 <= i < 8
    requires 45.0 * (i as real) - 22.5 <= degrees < 45.0 * (i as real) + 22.5
    ensures WindDirection(degrees) == Directions[i]
  {
    assert (degrees / 360.0).Floor == 0;
    assert JsRound(degrees / 45.0) == i;
  }

  /** From 337.5 degrees up to a full turn the bearing wraps round to north. */
  lemma WindWrapsToNorth(degrees: real)
    requires 337.5 <= degrees < 360.0
    ensures WindDirection(degrees) == "N"
  {
    assert (degrees / 360.0).Floor == 0;
    assert JsRound(degrees / 45.0) == 8;
  }

  /** The label repeats every full turn. */
  lemma WindPeriodic(degrees: real)
    ensures WindDirection(degrees + 360.0) == WindDirection(degrees)
  {
    var q := (degrees / 360.0).Floor;
    assert ((degrees + 360.0) / 360.0) == degrees / 360.0 + 1.0;
    assert ((degrees + 360.0) / 360.0).Floor == q + 1;
  }

  /** `isDaytime`: strictly after sunrise and strictly before sunset. */
  function IsDaytime(currentTime: int, sunrise: int, sunset: int): (r: bool)
    ensures r ==> sunrise < sunset
    ensures currentTime == sunrise || currentTime == sunset ==> !r
    ensures r <==> sunrise < currentTime < sunset
  {
    currentTime > sunrise && currentTime < sunset
  }

  /** `convertToFahrenheit`; converting back recovers the Celsius value. */
  function ToFahrenheit(celsius: real): (f: real)
    ensures (f - 32.0) * 5.0 / 9.0 == celsius
  {
    celsius * 9.0 / 5.0 + 32.0
  }

  /** Freezing and boiling points, and the one temperature both scales agree on. */
  lemma FahrenheitFixedPoints()
    ensures ToFahrenheit(0.0) == 32.0 && ToFahrenheit(100.0) == 212.0 && ToFahrenheit(-40.0) == -40.0
  {
  }

  /** The conversion is strictly increasing. */
  lemma FahrenheitIncreasing(a: real, b: real)
    requires a < b
    ensures ToFahrenheit(a) < ToFahrenheit(b)
  {
  }
}
