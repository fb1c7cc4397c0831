/** Discounting: the present value of one cash flow and the net present value
    (NPV) of a series of cash flows, period 0 being "now". */
module PresentValue {
  import opened Numeric

  /** b^n for a natural exponent. */
  function Pow(b: real, n: nat): (r: real)
    ensures b != 0.0 ==> r != 0.0
    ensures 0.0 < b ==> 0.0 < r
  {
    if n == 0 then 1.0 else b * Pow(b, n - 1)
  }

  /** The discount base 1 + r is non-zero, so every discount factor is finite. */
  predicate Discountable(rate: real)
  {
    1.0 + rate != 0.0
  }

  /** `cash_flow * (1 + rate)^(-period)`. At period 0 the factor is 1 whatever the
      rate; at a later period the base must be non-zero. */
  function PresentValue(cashFlow: real, period: nat, rate: real): (r: real)
    requires period == 0 || Discountable(rate)
    ensures period == 0 ==> r == cashFlow
  {
    cashFlow * (1.0 / Pow(1.0 + rate, period))
  }

  lemma PresentValueDivides(cashFlow: real, period: nat, rate: real)
    requires Discountable(rate)
    ensures PresentValue(cashFlow, period, rate) == cashFlow / Pow(1.0 + rate, period)
  {
  }

  /** One more period of discounting divides by one more factor 1 + r. */
  lemma PresentValueNextPeriod(cashFlow: real, period: nat, rate: real)
    requires Discountable(rate)
    ensures PresentValue(cashFlow, period + 1, rate) == PresentValue(cashFlow, period, rate) / (1.0 + rate)
  {
    var p := Pow(1.0 + rate, period);
    assert Pow(1.0 + rate, period + 1) == (1.0 + rate) * p;
    calc {
      PresentValue(cashFlow, period + 1, rate);
      cashFlow * (1.0 / ((1.0 + rate) * p));
      (cashFlow * (1.0 / p)) / (1.0 + rate);
    }
  }

  lemma PresentValueLinear(k: real, cashFlow: real, period: nat, rate: real)
    requires period == 0 || Discountable(rate)
    ensures PresentValue(k * cashFlow, period, rate) == k * PresentValue(cashFlow, period, rate)
  {
  }

  /** The doc examples: 5 discounted one period at 20% is 4.167, and 10
      discounted two periods at 10% is 8.264, each to within 0.001. */
  lemma PresentValueExample()
    ensures Abs(PresentValue(5.0, 1, 0.20) - 4.167) < 0.001
    ensures Abs(PresentValue(10.0, 2, 0.10) - 8.264) < 0.001
  {
    assert Pow(1.20, 1) == 1.20;
    assert Pow(1.10, 2) == 1.21;
  }

  /** The series may be discounted at `rate`: a base 1 + r of zero is only harmless
      when no cash flow lies beyond period 0. */
  predicate DiscountableFor(cashFlows: seq<real>, rate: real)
  {
    |cashFlows| <= 1 || Discountable(rate)
  }

  /** `enumerate().map(present_value)`: each cash flow discounted by its position. */
  function Discounted(cashFlows: seq<real>, rate: real): (d: seq<real>)
    requires DiscountableFor(cashFlows, rate)
    ensures |d| == |cashFlows|
  {
    seq(|cashFlows|, i requires 0 <= i < |cashFlows| => PresentValue(cashFlows[i], i, rate))
  }

  /** `Iterator::sum`: a left fold with `+` starting from 0. */
  function Sum(xs: seq<real>): real
  {
    if xs == [] then 0.0 else Sum(xs[..|xs| - 1]) + xs[|xs| - 1]
  }

  /** A sum of non-negative terms is non-negative. */
  lemma {:induction false} SumNonNegative(xs: seq<real>)
    ensures (forall i :: 0 <= i < |xs| ==> 0.0 <= xs[i]) ==> 0.0 <= Sum(xs)
    decreases |xs|
  {
    if xs != [] && forall i :: 0 <= i < |xs| ==> 0.0 <= xs[i] {
      SumNonNegative(xs[..|xs| - 1]);
    }
  }

  /** `from_cash_flows_and_discount_rate`: the NPV of the series at `rate`. No
      cash flows are worth 0, and a single cash flow is its own NPV at every
      rate, even at r = -1, where `powi(0)` is still 1. */
  function Npv(cashFlows: seq<real>, rate: real): (r: real)
    requires DiscountableFor(cashFlows, rate)
    ensures cashFlows == [] ==> r == 0.0
    ensures |cashFlows| == 1 ==> r == cashFlows[0]
  {
    var d := Discounted(cashFlows, rate);
    assert |cashFlows| == 1 ==> d[..0] == [] && Sum(d) == Sum([]) + d[0];
    Sum(d)
  }

  /** Non-negative cash flows at a rate above -100% have a non-negative NPV. */
  lemma NpvNonNegative(cashFlows: seq<real>, rate: real)
    requires 0.0 < 1.0 + rate
    requires forall i :: 0 <= i < |cashFlows| ==> 0.0 <= cashFlows[i]
    ensures 0.0 <= Npv(cashFlows, rate)
  {
    SumNonNegative(Discounted(cashFlows, rate));
  }

  /** The evaluator handed to the IRR searches. Where 1 + r = 0 and a cash flow
      lies beyond period 0 the float code yields a non-finite value; the
      placeholder 0.0 stands for it. */
  function NpvOf(cashFlows: seq<real>): real -> real
  {
    r => if DiscountableFor(cashFlows, r) then Npv(cashFlows, r) else 0.0
  }

  lemma NpvOfAgrees(cashFlows: seq<real>, rate: real)
    requires DiscountableFor(cashFlows, rate)
    ensures NpvOf(cashFlows)(rate) == Npv(cashFlows, rate)
  {
  }

  /** Appending a cash flow adds it discounted by its position in the series. */
  lemma NpvSnoc(cashFlows: seq<real>, x: real, rate: real)
    requires Discountable(rate)
    ensures Npv(cashFlows + [x], rate) == Npv(cashFlows, rate) + PresentValue(x, |cashFlows|, rate)
  {
    var d := Discounted(cashFlows + [x], rate);
    assert d[..|d| - 1] == Discounted(cashFlows, rate);
  }

  lemma {:induction false} SumCons(x: real, xs: seq<real>)
    ensures Sum([x] + xs) == x + Sum(xs)
    decreases |xs|
  {
    if xs != [] {
      var ys := [x] + xs;
      assert ys[..|ys| - 1] == [x] + xs[..|xs| - 1];
      SumCons(x, xs[..|xs| - 1]);
    }
  }

  lemma {:induction false} SumScaled(k: real, xs: seq<real>, ys: seq<real>)
    requires |xs| == |ys|
    requires forall i :: 0 <= i < |xs| ==> ys[i] == k * xs[i]
    ensures Sum(ys) == k * Sum(xs)
    decreases |xs|
  {
    if xs != [] {
      SumScaled(k, xs[..|xs| - 1], ys[..|ys| - 1]);
    }
  }

  /** Scaling every cash flow by k scales the NPV by k. */
  lemma NpvLinear(k: real, cashFlows: seq<real>, scaled: seq<real>, rate: real)
    requires |scaled| == |cashFlows|
    requires forall i :: 0 <= i < |cashFlows| ==> scaled[i] == k * cashFlows[i]
    requires DiscountableFor(cashFlows, rate)
    ensures Npv(scaled, rate) == k * Npv(cashFlows, rate)
  {
    var d, e := Discounted(cashFlows, rate), Discounted(scaled, rate);
    forall i | 0 <= i < |d|
      ensures e[i] == k * d[i]
    {
      PresentValueLinear(k, cashFlows[i], i, rate);
    }
    SumScaled(k, d, e);
  }

  /** Horner's form: the NPV is the first cash flow plus the NPV of the rest
      discounted one more period. */
  lemma NpvCons(x: real, rest: seq<real>, rate: real)
    requires Discountable(rate)
    ensures Npv([x] + rest, rate) == x + Npv(rest, rate) / (1.0 + rate)
  {
    var d := Discounted([x] + rest, rate);
    DiscountedShift(x, rest, rate);
    assert d == [x] + d[1..];
    SumCons(x, d[1..]);
  }

  /** Behind a first cash flow, every later flow is discounted one period more,
      so the later flows sum to the NPV of the rest divided by 1 + r. */
  lemma DiscountedShift(x: real, rest: seq<real>, rate: real)
    requires Discountable(rate)
    ensures Discounted([x] + rest, rate)[0] == x
    ensures Sum(Discounted([x] + rest, rate)[1..]) == Sum(Discounted(rest, rate)) / (1.0 + rate)
  {
    var d, e := Discounted([x] + rest, rate), Discounted(rest, rate);
    var f := 1.0 / (1.0 + rate);
    ShiftedTerms(x, rest, rate, f);
    SumScaled(f, e, d[1..]);
    ReciprocalTimes(Sum(d[1..]), f, Sum(e), 1.0 + rate);
  }

  lemma ShiftedTerms(x: real, rest: seq<real>, rate: real, f: real)
    requires Discountable(rate) && f == 1.0 / (1.0 + rate)
    ensures var d, e := Discounted([x] + rest, rate), Discounted(rest, rate);
      |d[1..]| == |e| && forall i :: 0 <= i < |e| ==> d[1..][i] == f * e[i]
  {
    var d, e := Discounted([x] + rest, rate), Discounted(rest, rate);
    forall i | 0 <= i < |e|
      ensures d[1..][i] == f * e[i]
    {
      assert d[1..][i] == PresentValue(rest[i], i + 1, rate);
      PresentValueNextPeriod(rest[i], i, rate);
    }
  }

  lemma ReciprocalTimes(s: real, f: real, n: real, b: real)
    requires b != 0.0 && f == 1.0 / b && s == f * n
    ensures s == n / b
  {
  }

  /** Two cash flows: the first undiscounted, the second discounted once. */
  lemma NpvTwoFlows(first: real, second: real, rate: real)
    requires Discountable(rate)
    ensures Npv([first, second], rate) == first + second / (1.0 + rate)
  {
    NpvCons(first, [second], rate);
    assert [first, second] == [first] + [second];
  }

  /** The doc example: three flows of 10 at 10% are worth 27.35 to within 0.01. */
  lemma NpvExample()
    ensures Abs(Npv([10.0, 10.0, 10.0], 0.10) - 27.35) < 0.01
  {
    NpvSnoc([10.0], 10.0, 0.10);
    assert [10.0, 10.0] == [10.0] + [10.0];
    NpvSnoc([10.0, 10.0], 10.0, 0.10);
    assert [10.0, 10.0, 10.0] == [10.0, 10.0] + [10.0];
    assert Pow(1.10, 1) == 1.10;
    assert Pow(1.10, 2) == 1.21;
  }
}
