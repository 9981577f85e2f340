/**
 * The parts of JavaScript's `Math` the framework calls. `sqrt`, `sin` and
 * `cos` are left uninterpreted: a lemma that needs one of their laws asks for
 * it, at the points it uses, through a precondition such as `RootOf`.
 */
module JsMath {

  datatype Math = Math(sqrt: real -> real, sin: real -> real, cos: real -> real)

  /** `Math.PI` to the precision of a double. */
  const PI: real := 3.141592653589793

  function Abs(x: real): (r: real)
    ensures r >= 0.0 && (r == x || r == -x)
  {
    if x < 0.0 then -x else x
  }

  /** `m.sin` and `m.cos` satisfy the Pythagorean identity at `t`. */
  predicate PythagoreanAt(m: Math, t: real)
  {
    m.sin(t) * m.sin(t) + m.cos(t) * m.cos(t) == 1.0
  }

  /** `m.sqrt` behaves as the square root at `t`. */
  predicate RootOf(m: Math, t: real)
  {
    m.sqrt(t) >= 0.0 && m.sqrt(t) * m.sqrt(t) == t
  }
}
