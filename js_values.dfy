/**
 * The parts of JavaScript's number semantics that the model needs: a number is
 * either a finite value or NaN, and NaN absorbs every arithmetic operation.
 * Finite values are exact reals here (the IEEE-754 rounding of the source is
 * not modelled).
 */
module JsValues {
  import opened Wrappers

  datatype Number = Num(x: real) | NaN

  /** `a + b` on numbers. */
  function Add(a: Number, b: Number): (r: Number)
    ensures r.NaN? <==> a.NaN? || b.NaN?
    ensures a.Num? && b.Num? ==> r.x == a.x + b.x
  {
    if a.Num? && b.Num? then Num(a.x + b.x) else NaN
  }

  /** `a * b` on numbers. */
  function Mul(a: Number, b: Number): (r: Number)
    ensures r.NaN? <==> a.NaN? || b.NaN?
    ensures a.Num? && b.Num? ==> r.x == a.x * b.x
  {
    if a.Num? && b.Num? then Num(a.x * b.x) else NaN
  }

  /** `Number.isInteger(v)` for a number. */
  predicate IsInteger(v: Number) {
    v.Num? && v.x == v.x.Floor as real
  }

  /** JavaScript truthiness of an optional string: present and not empty. */
  predicate Supplied(s: Option<string>) {
    s.Some? && s.value != ""
  }
}
