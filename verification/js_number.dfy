/**
 * The JavaScript Number values the dashboard handles: NaN, or a finite value
 * given by its sign bit and its magnitude. Keeping the sign bit apart from the
 * magnitude makes -0 (what parseInt("-0", 10) returns) distinct from +0.
 * Rounding to IEEE-754 doubles is not modelled.
 */
module JsNumber {
  type Magnitude = r: real | 0.0 <= r

  datatype Number = NaN | Finite(negative: bool, magnitude: Magnitude)

  /** The finite Number whose mathematical value is the integer i (never -0). */
  function FromInt(i: int): (n: Number)
    ensures n.Finite? && n.negative == (i < 0)
    ensures n.magnitude == (if i < 0 then -i else i) as real
  {
    if i < 0 then Finite(true, (-i) as real) else Finite(false, i as real)
  }
}
