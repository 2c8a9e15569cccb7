/** Degree/radian conversion of `CGFloatExt.swift`. */
module Angles {

  /** The source's `π`, which is `Double.pi`: the double nearest to pi, written out exactly. */
  const Pi: real := 3.141592653589793115997963468544185161590576171875

  /** `degreesToRadians()`: `d` degrees expressed in radians. */
  function DegreesToRadians(d: real): (r: real)
    ensures RadiansToDegrees(r) == d
    ensures r < 0.0 <==> d < 0.0
    ensures r == 0.0 <==> d == 0.0
    ensures d == 180.0 ==> r == Pi
    ensures d == 360.0 ==> r == 2.0 * Pi
  {
    Pi * d / 180.0
  }

  /** `radiansToDegrees()`: `r` radians expressed in degrees. */
  function RadiansToDegrees(r: real): (d: real)
    ensures d < 0.0 <==> r < 0.0
    ensures d == 0.0 <==> r == 0.0
    ensures r == Pi ==> d == 180.0
    ensures r == 2.0 * Pi ==> d == 360.0
  {
    r * 180.0 / Pi
  }

  /** The converse round trip: radians to degrees and back is the identity. */
  lemma RadiansRoundTrip(r: real)
    ensures DegreesToRadians(RadiansToDegrees(r)) == r
  {
  }

  /** Both conversions are linear maps. */
  lemma ConversionsLinear(a: real, b: real, k: real)
    ensures DegreesToRadians(a + b) == DegreesToRadians(a) + DegreesToRadians(b)
    ensures DegreesToRadians(k * a) == k * DegreesToRadians(a)
    ensures RadiansToDegrees(a + b) == RadiansToDegrees(a) + RadiansToDegrees(b)
    ensures RadiansToDegrees(k * a) == k * RadiansToDegrees(a)
  {
  }
}
