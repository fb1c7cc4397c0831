/** The machine-epsilon relative comparison of two floats: equal enough when
    their difference is at most epsilon times the larger magnitude. */
module AreEqualEnough {
  import opened Numeric

  /** `are_equal_enough::is_true`. Equal values always pass; against zero only
      zero passes, since the tolerance is relative. */
  predicate IsTrue(a: real, b: real)
    ensures a == b ==> IsTrue(a, b)
    ensures b == 0.0 ==> (IsTrue(a, b) <==> a == 0.0)
  {
    var difference := Abs(a - b);
    var aAbs := Abs(a);
    var bAbs := Abs(b);
    var larger := if aAbs < bAbs then bAbs else aAbs;
    difference <= larger * EPS
  }

  /** The test in closed form, symmetric in its arguments and true of equal values. */
  lemma IsTrueMeaning(a: real, b: real)
    ensures IsTrue(a, b) <==> Abs(a - b) <= MaxReal(Abs(a), Abs(b)) * EPS
    ensures IsTrue(a, b) == IsTrue(b, a)
    ensures IsTrue(a, a)
  {
  }

  /** There is no absolute floor: only zero itself is equal enough to zero. */
  lemma IsTrueAgainstZero(x: real)
    ensures IsTrue(x, 0.0) <==> x == 0.0
    ensures IsTrue(0.0, x) <==> x == 0.0
  {
    ConstantsInRange();
    if x != 0.0 {
      assert Abs(x) * EPS < Abs(x);
    }
  }

  /** Values further apart than twice the relative tolerance are never equal enough. */
  lemma IsTrueFarApart(a: real, b: real)
    requires Abs(a - b) > MaxReal(Abs(a), Abs(b)) * EPS * 2.0
    ensures !IsTrue(a, b)
  {
  }

  /** The two sides of the test: the distance between the values and the
      tolerance allowed for them. */
  function Difference(a: real, b: real): real
  {
    Abs(a - b)
  }

  function Tolerance(a: real, b: real): real
  {
    MaxReal(Abs(a), Abs(b)) * EPS
  }

  /** `m * x`, kept as one term so that comparisons of scaled values stay linear. */
  function Scale(m: real, x: real): real
  {
    m * x
  }

  lemma IsTrueComparison(a: real, b: real)
    ensures IsTrue(a, b) == (Difference(a, b) <= Tolerance(a, b))
  {
  }

  /** Multiplying both sides by the same non-zero factor does not change the verdict. */
  lemma IsTrueScaleInvariant(k: real, a: real, b: real)
    requires k != 0.0
    ensures IsTrue(k * a, k * b) == IsTrue(a, b)
  {
    DifferenceScaled(k, a, b);
    ToleranceScaled(k, a, b);
    ScaledVerdict(a, b, k * a, k * b, Abs(k));
  }

  /** A pair whose difference and tolerance are those of another pair times a
      positive m gets the same verdict. */
  lemma ScaledVerdict(a: real, b: real, c: real, e: real, m: real)
    requires 0.0 < m
    requires Difference(c, e) == Scale(m, Difference(a, b))
    requires Tolerance(c, e) == Scale(m, Tolerance(a, b))
    ensures IsTrue(c, e) == IsTrue(a, b)
  {
    IsTrueComparison(a, b);
    IsTrueComparison(c, e);
    ScaledComparison(m, Difference(a, b), Tolerance(a, b));
  }

  /** The difference of the scaled pair is that of the original pair times |k|. */
  lemma DifferenceScaled(k: real, a: real, b: real)
    ensures Difference(k * a, k * b) == Scale(Abs(k), Difference(a, b))
  {
    assert k * a - k * b == k * (a - b);
    AbsProduct(k, a - b);
  }

  /** The tolerance of the scaled pair is that of the original pair times |k|. */
  lemma ToleranceScaled(k: real, a: real, b: real)
    ensures Tolerance(k * a, k * b) == Scale(Abs(k), Tolerance(a, b))
  {
    LargerScaled(k, a, b);
    ScaleThenEpsilon(Abs(k), MaxReal(Abs(a), Abs(b)));
  }

  /** The larger magnitude of the scaled pair is |k| times the larger magnitude. */
  lemma LargerScaled(k: real, a: real, b: real)
    ensures MaxReal(Abs(k * a), Abs(k * b)) == Scale(Abs(k), MaxReal(Abs(a), Abs(b)))
  {
    AbsProduct(k, a);
    AbsProduct(k, b);
    MaxScaled(Abs(k), Abs(a), Abs(b));
  }

  lemma ScaleThenEpsilon(m: real, x: real)
    ensures Scale(m, x) * EPS == Scale(m, x * EPS)
  {
  }

  lemma AbsProduct(x: real, y: real)
    ensures Abs(x * y) == Abs(x) * Abs(y)
  {
  }

  lemma MaxScaled(m: real, x: real, y: real)
    requires 0.0 <= m
    ensures MaxReal(m * x, m * y) == m * MaxReal(x, y)
  {
  }

  lemma ScaledComparison(m: real, x: real, y: real)
    requires 0.0 < m
    ensures (Scale(m, x) <= Scale(m, y)) == (x <= y)
  {
  }

  /** Equal enough to the NPV tolerance means a positive value within a relative
      epsilon of it, never a value near zero. */
  lemma NearPrecisionIsPositive(v: real)
    requires IsTrue(NPV_PRECISION, v)
    ensures 0.0 < v
    ensures NPV_PRECISION * (1.0 - EPS) <= v <= NPV_PRECISION / (1.0 - EPS)
  {
    ConstantsInRange();
    IsTrueMeaning(NPV_PRECISION, v);
    if v > NPV_PRECISION {
      assert v - NPV_PRECISION <= v * EPS;
      assert v * (1.0 - EPS) <= NPV_PRECISION;
    }
  }

  /** The doc example: 0.0010 is equal enough to itself but not to 0.0011. */
  lemma IsTrueExample()
    ensures IsTrue(0.0010, 0.0010)
    ensures !IsTrue(0.0010, 0.0011)
  {
  }
}
