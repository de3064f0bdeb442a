/** JavaScript values as the dashboard's pure logic sees them. */
module Js {

  /**
   * A JavaScript number. A finite value is taken as the exact real it
   * denotes; the rounding of binary floating point is not modelled.
   */
  datatype Number = NaN | Finite(value: real) | Infinity | NegInfinity

  /** An element of a decoded JSON array, or `undefined` past its end. */
  datatype Value = JsNumber(n: Number) | JsString(s: string) | JsUndefined

}
