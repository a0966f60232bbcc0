/** Numeric constants and the tolerant float comparison shared by the whole tracer. */
module Util {

  /** Rust's `Option`: the result of a lookup or a search that may find nothing. */
  datatype Option<T> = None | Some(value: T)

  /** Tolerance used by every approximate equality in the tracer. */
  const EPSILON: real := 0.00001

  /** Recursion budget for reflected light (declared, not yet consumed by the world). */
  const MAX_REFLECTIONS: nat := 10

  function Abs(x: real): (r: real)
    ensures r >= 0.0
    ensures r == x || r == -x
  {
    if x < 0.0 then -x else x
  }

  /** Two floats are equal when their difference is strictly below EPSILON. */
  predicate FltEq(a: real, b: real)
  {
    Abs(a - b) < EPSILON
  }

  /** FltEq is an open interval of half-width EPSILON around `a`. */
  lemma FltEqIsOpenInterval(a: real, b: real)
    ensures FltEq(a, b) <==> a - EPSILON < b < a + EPSILON
  {
  }

  lemma FltEqReflexiveSymmetric(a: real, b: real)
    ensures FltEq(a, a)
    ensures FltEq(a, b) <==> FltEq(b, a)
  {
  }

  /** The comparison is strict: a difference of exactly EPSILON is "not equal". */
  lemma FltEqStrict(a: real)
    ensures !FltEq(a, a + EPSILON)
    ensures !FltEq(a + EPSILON, a)
  {
  }

  /** FltEq is not transitive: 0 ~ 0.6e-5 and 0.6e-5 ~ 1.2e-5, yet 0 is not ~ 1.2e-5. */
  lemma FltEqNotTransitive()
    ensures FltEq(0.0, 0.000006) && FltEq(0.000006, 0.000012)
    ensures !FltEq(0.0, 0.000012)
  {
  }
}
