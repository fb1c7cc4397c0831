/** The bisection solver `functions::irr::bisection`: given two rates whose NPVs
    do not share a strict sign, repeatedly replace one of them by the midpoint
    until the NPV at the midpoint is equal enough to the precision constant or
    the iteration budget is spent. */
module IrrBisection {
  import opened Numeric
  import opened Midpoint
  import opened AreEqualEnough
  import opened IrrRecord
  import opened PresentValue

  /** The two bounds of the search with the NPVs the loop holds for them. */
  datatype Segment = Segment(low: real, npvLow: real, high: real, npvHigh: real)

  /** The product of two NPVs is positive: they share a strict sign. */
  predicate SameSign(x: real, y: real)
  {
    0.0 < x * y
  }

  /** The product of two NPVs is negative: they have strictly opposite signs. */
  predicate OppositeSigns(x: real, y: real)
  {
    x * y < 0.0
  }

  /** The NPVs at the two bounds do not share a strict sign. */
  predicate Brackets(s: Segment)
  {
    !SameSign(s.npvLow, s.npvHigh)
  }

  /** The stored NPVs are the evaluator's values at the stored rates. */
  predicate Consistent(npvAt: real -> real, s: Segment)
  {
    s.npvLow == npvAt(s.low) && s.npvHigh == npvAt(s.high)
  }

  /** The segment the solver starts from: the two guesses and their NPVs. */
  function Start(npvAt: real -> real, rateLow: real, rateHigh: real): Segment
  {
    Segment(rateLow, npvAt(rateLow), rateHigh, npvAt(rateHigh))
  }

  function Mid(s: Segment): real
  {
    Calculate(s.low, s.high)
  }

  /** One bisection step: the high bound takes the midpoint when the NPVs at the
      low bound and at the midpoint have strictly opposite signs, otherwise the
      low bound does. */
  function Halve(npvAt: real -> real, s: Segment): (r: Segment)
    ensures r.high - r.low == (s.high - s.low) / 2.0
    ensures r.low == s.low || r.high == s.high
    ensures Consistent(npvAt, s) ==> Consistent(npvAt, r)
  {
    var mid := Mid(s);
    var npv := npvAt(mid);
    if OppositeSigns(s.npvLow, npv) then Segment(s.low, s.npvLow, mid, npv)
    else Segment(mid, npv, s.high, s.npvHigh)
  }

  /** The segment after `k` steps. The stored NPVs stay the evaluator's values
      at the stored rates. */
  function Bisect(npvAt: real -> real, s: Segment, k: nat): (r: Segment)
    ensures Consistent(npvAt, s) ==> Consistent(npvAt, r)
  {
    if k == 0 then s else Halve(npvAt, Bisect(npvAt, s, k - 1))
  }

  /** A step replaces exactly one bound, with its NPV, by the midpoint and its
      NPV; which one depends on the sign test against the low bound's NPV. */
  lemma HalveReplacesOne(npvAt: real -> real, s: Segment)
    ensures var h, mid := Halve(npvAt, s), Mid(s);
      if OppositeSigns(s.npvLow, npvAt(mid))
      then h.low == s.low && h.npvLow == s.npvLow && h.high == mid && h.npvHigh == npvAt(mid)
      else h.high == s.high && h.npvHigh == s.npvHigh && h.low == mid && h.npvLow == npvAt(mid)
  {
  }

  /** Each step halves the width, so after `k` steps it is the starting width
      over 2^k. */
  lemma {:induction false} BisectWidth(npvAt: real -> real, s: Segment, k: nat)
    ensures var b := Bisect(npvAt, s, k); b.high - b.low == (s.high - s.low) / Pow2(k)
  {
    if k > 0 {
      BisectWidth(npvAt, s, k - 1);
      assert Pow2(k) == 2.0 * Pow2(k - 1);
    }
  }

  /** With ordered guesses every later segment is ordered and nested in the first. */
  lemma {:induction false} BisectNested(npvAt: real -> real, s: Segment, k: nat)
    requires s.low <= s.high
    ensures var b := Bisect(npvAt, s, k); s.low <= b.low <= b.high <= s.high
  {
    if k > 0 {
      BisectNested(npvAt, s, k - 1);
    }
  }

  lemma SignCases(x: real, y: real)
    ensures SameSign(x, y) <==> (0.0 < x && 0.0 < y) || (x < 0.0 && y < 0.0)
    ensures OppositeSigns(x, y) <==> (0.0 < x && y < 0.0) || (x < 0.0 && 0.0 < y)
  {
    if 0.0 < x && 0.0 < y { assert 0.0 < x * y; }
    if x < 0.0 && y < 0.0 { assert 0.0 < x * y; }
    if 0.0 < x && y < 0.0 { assert x * y < 0.0; }
    if x < 0.0 && 0.0 < y { assert x * y < 0.0; }
  }

  /** A step keeps the root bracketed as long as the low bound's NPV is not
      exactly zero. */
  lemma HalveKeepsBracket(npvAt: real -> real, s: Segment)
    requires Brackets(s) && s.npvLow != 0.0
    ensures Brackets(Halve(npvAt, s))
  {
    var v := npvAt(Mid(s));
    SignCases(s.npvLow, s.npvHigh);
    SignCases(s.npvLow, v);
    SignCases(v, s.npvHigh);
  }

  /** The bracket survives `k` steps when no low bound met on the way has an NPV
      of exactly zero. */
  lemma {:induction false} BisectKeepsBracket(npvAt: real -> real, s: Segment, k: nat)
    requires Brackets(s)
    requires forall j: nat :: j < k ==> Bisect(npvAt, s, j).npvLow != 0.0
    ensures Brackets(Bisect(npvAt, s, k))
  {
    if k > 0 {
      BisectKeepsBracket(npvAt, s, k - 1);
      HalveKeepsBracket(npvAt, Bisect(npvAt, s, k - 1));
    }
  }

  /** `functions::irr::bisection`. The NPV evaluator is the parameter `npvAt`. */
  method Bisection(npvAt: real -> real, rateLowGuess: real, rateHighGuess: real, iterationLimit: i16)
    returns (r: Irr)
    ensures r.iterationLimit == iterationLimit
    ensures SameSign(npvAt(rateLowGuess), npvAt(rateHighGuess)) ==>
      r == Irr(rateLowGuess, npvAt(rateLowGuess), rateHighGuess, npvAt(rateHighGuess),
               iterationLimit, 0, None, None, false)
    ensures !SameSign(npvAt(rateLowGuess), npvAt(rateHighGuess)) ==>
      && 0 <= r.iterationsRun as int <= Max(0, iterationLimit as int)
      && var s := Bisect(npvAt, Start(npvAt, rateLowGuess, rateHighGuess), r.iterationsRun as nat);
      && r.rateLow == s.low && r.npvRateLow == s.npvLow
      && r.rateHigh == s.high && r.npvRateHigh == s.npvHigh
      && r.npvRateLow == npvAt(r.rateLow) && r.npvRateHigh == npvAt(r.rateHigh)
      && r.irr == Some(Mid(s)) && r.npv == Some(npvAt(Mid(s)))
      && r.isValid == (Abs(npvAt(Mid(s))) <= NPV_PRECISION)
      && (r.iterationsRun < iterationLimit ==> IsTrue(NPV_PRECISION, npvAt(Mid(s))))
      && forall j: nat :: j < r.iterationsRun as nat ==>
           !IsTrue(NPV_PRECISION, npvAt(Mid(Bisect(npvAt, Start(npvAt, rateLowGuess, rateHighGuess), j))))
  {
    var rateLow := rateLowGuess;
    var rateHigh := rateHighGuess;

    var npvRateLow := npvAt(rateLow);
    var npvRateHigh := npvAt(rateHigh);

    if SameSign(npvRateLow, npvRateHigh) {
      return Irr(rateLow, npvRateLow, rateHigh, npvRateHigh, iterationLimit, 0, None, None, false);
    }

    ghost var start := Segment(rateLow, npvRateLow, rateHigh, npvRateHigh);
    var irr := Calculate(rateLow, rateHigh);
    var npv := npvAt(irr);
    var iterationsRun: i16 := 0;
    var precision := NPV_PRECISION;

    while iterationsRun < iterationLimit && !IsTrue(precision, npv)
      invariant 0 <= iterationsRun as int <= Max(0, iterationLimit as int)
      invariant Segment(rateLow, npvRateLow, rateHigh, npvRateHigh) == Bisect(npvAt, start, iterationsRun as nat)
      invariant npvRateLow == npvAt(rateLow) && npvRateHigh == npvAt(rateHigh)
      invariant irr == Calculate(rateLow, rateHigh) && npv == npvAt(irr)
      invariant forall j: nat :: j < iterationsRun as nat ==> !IsTrue(NPV_PRECISION, npvAt(Mid(Bisect(npvAt, start, j))))
    {
      ghost var before := Segment(rateLow, npvRateLow, rateHigh, npvRateHigh);
      iterationsRun := iterationsRun + 1;

      if OppositeSigns(npvRateLow, npv) {
        rateHigh := irr;
        npvRateHigh := npv;
      } else {
        rateLow := irr;
        npvRateLow := npv;
      }

      assert Segment(rateLow, npvRateLow, rateHigh, npvRateHigh) == Halve(npvAt, before);
      irr := Calculate(rateLow, rateHigh);
      npv := npvAt(irr);
    }

    return Irr(rateLow, npvRateLow, rateHigh, npvRateHigh, iterationLimit, iterationsRun,
               Some(irr), Some(npv), Abs(npv) <= NPV_PRECISION);
  }

  /** The early-exit test and the validity test differ: an NPV of exactly zero
      never stops the loop, and an NPV a hair above the precision stops it yet
      is reported invalid. */
  lemma StopTestIsNotValidity()
    ensures !IsTrue(NPV_PRECISION, 0.0) && Abs(0.0) <= NPV_PRECISION
    ensures var v := NPV_PRECISION * (1.0 + EPS / 2.0);
      IsTrue(NPV_PRECISION, v) && !(Abs(v) <= NPV_PRECISION)
  {
    IsTrueAgainstZero(NPV_PRECISION);
    ConstantsInRange();
    var v := NPV_PRECISION * (1.0 + EPS / 2.0);
    IsTrueMeaning(NPV_PRECISION, v);
  }

  /** An exact root at a midpoint loses the bracket. For the cash flows [-1, 1]
      (root at rate 0) started on [-0.5, 0.5], the first midpoint is the root,
      its zero NPV does not stop the loop, the zero is moved into the low bound,
      and one step later both bounds have negative NPVs. */
  lemma ExactRootLosesBracket()
    ensures var npvAt := NpvOf([-1.0, 1.0]);
      var s := Start(npvAt, -0.5, 0.5);
      && Brackets(s)
      && Mid(s) == 0.0 && npvAt(Mid(s)) == 0.0
      && !IsTrue(NPV_PRECISION, npvAt(Mid(s)))
      && Bisect(npvAt, s, 1) == Segment(0.0, 0.0, 0.5, -1.0 / 3.0)
      && Bisect(npvAt, s, 2) == Segment(0.25, -0.2, 0.5, -1.0 / 3.0)
      && SameSign(Bisect(npvAt, s, 2).npvLow, Bisect(npvAt, s, 2).npvHigh)
  {
    var npvAt := NpvOf([-1.0, 1.0]);
    ExampleNpvValues();
    IsTrueAgainstZero(NPV_PRECISION);
    var s := Start(npvAt, -0.5, 0.5);
    var s1 := Segment(0.0, 0.0, 0.5, -1.0 / 3.0);
    assert Mid(s) == 0.0;
    assert !OppositeSigns(1.0, 0.0);
    assert Bisect(npvAt, s, 1) == Halve(npvAt, s) == s1;
    assert Mid(s1) == 0.25;
    assert !OppositeSigns(0.0, -0.2);
    assert Bisect(npvAt, s, 2) == Halve(npvAt, s1) == Segment(0.25, -0.2, 0.5, -1.0 / 3.0);
    assert SameSign(-0.2, -1.0 / 3.0);
  }

  /** The NPVs of the cash flows [-1, 1] at the rates the example visits. */
  lemma ExampleNpvValues()
    ensures NpvOf([-1.0, 1.0])(-0.5) == 1.0
    ensures NpvOf([-1.0, 1.0])(0.5) == -1.0 / 3.0
    ensures NpvOf([-1.0, 1.0])(0.0) == 0.0
    ensures NpvOf([-1.0, 1.0])(0.25) == -0.2
  {
    NpvTwoFlows(-1.0, 1.0, -0.5);
    NpvTwoFlows(-1.0, 1.0, 0.5);
    NpvTwoFlows(-1.0, 1.0, 0.0);
    NpvTwoFlows(-1.0, 1.0, 0.25);
  }
}
