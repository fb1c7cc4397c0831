/** The midpoint of two rates, written `a + (c - a) / 2` rather than `(a + c) / 2`
    so that the float sum cannot overflow; over the reals both are the same. */
module Midpoint {
  import opened Numeric

  /** `midpoint::calculate`. */
  function Calculate(a: real, c: real): (m: real)
    ensures m - a == c - m
    ensures MinReal(a, c) <= m <= MaxReal(a, c)
  {
    a + (c - a) / 2.0
  }

  /** In exact arithmetic the overflow-safe form is the plain average, so the
      argument order does not matter and a degenerate interval is its own midpoint. */
  lemma CalculateIsAverage(a: real, c: real)
    ensures Calculate(a, c) == (a + c) / 2.0
    ensures Calculate(a, c) == Calculate(c, a)
    ensures Calculate(a, a) == a
  {
  }

  /** The doc example: the midpoint of 1 and 2 is 1.5. */
  lemma CalculateExample()
    ensures Calculate(1.0, 2.0) == 1.5
  {
  }
}
