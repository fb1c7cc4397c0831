/** Compounding: a present value carried forward through one rate per period. */
module FutureValue {
  import opened Numeric

  /** The folding closure: one period of growth at rate `r`. */
  function Accumulate(acc: real, r: real): real
  {
    acc * (1.0 + r)
  }

  /** `from_pv_and_expected_rates`: a left fold of `Accumulate` over the rates,
      starting from the present value. */
  function FromPvAndExpectedRates(presentValue: real, rates: seq<real>): real
    decreases |rates|
  {
    if rates == [] then presentValue
    else FromPvAndExpectedRates(Accumulate(presentValue, rates[0]), rates[1..])
  }

  /** While every rate stays above -100%, the future value has the sign of
      the present value. */
  lemma {:induction false} FutureValueSign(presentValue: real, rates: seq<real>)
    requires forall i :: 0 <= i < |rates| ==> -1.0 < rates[i]
    ensures 0.0 < FromPvAndExpectedRates(presentValue, rates) <==> 0.0 < presentValue
    ensures FromPvAndExpectedRates(presentValue, rates) == 0.0 <==> presentValue == 0.0
    decreases |rates|
  {
    if rates != [] {
      AccumulateSign(presentValue, rates[0]);
      assert forall i :: 0 <= i < |rates| - 1 ==> rates[1..][i] == rates[i + 1];
      FutureValueSign(Accumulate(presentValue, rates[0]), rates[1..]);
    }
  }

  /** One period at a rate above -100% keeps the sign of the value. */
  lemma AccumulateSign(acc: real, r: real)
    ensures -1.0 < r ==> (0.0 < Accumulate(acc, r) <==> 0.0 < acc)
    ensures -1.0 < r ==> (Accumulate(acc, r) == 0.0 <==> acc == 0.0)
  {
    if -1.0 < r {
      if 0.0 < acc { assert 0.0 < acc * (1.0 + r); }
      if acc < 0.0 { assert acc * (1.0 + r) < 0.0; }
    }
  }

  /** The growth factor of a rate sequence: the product of every 1 + r. */
  function Growth(rates: seq<real>): real
    decreases |rates|
  {
    if rates == [] then 1.0 else (1.0 + rates[0]) * Growth(rates[1..])
  }

  lemma FoldStep(presentValue: real, rates: seq<real>)
    requires rates != []
    ensures FromPvAndExpectedRates(presentValue, rates)
         == FromPvAndExpectedRates(Accumulate(presentValue, rates[0]), rates[1..])
  {
  }

  lemma GrowthCons(x: real, xs: seq<real>)
    ensures Growth([x] + xs) == (1.0 + x) * Growth(xs)
  {
    assert ([x] + xs)[1..] == xs;
  }

  lemma NoRatesKeepsValue(presentValue: real)
    ensures FromPvAndExpectedRates(presentValue, []) == presentValue
  {
  }

  /** The fold is a left fold: the last rate is applied last. */
  lemma {:induction false} CompoundOneMore(presentValue: real, rates: seq<real>, rate: real)
    ensures FromPvAndExpectedRates(presentValue, rates + [rate])
         == FromPvAndExpectedRates(presentValue, rates) * (1.0 + rate)
    decreases |rates|
  {
    if rates == [] {
      assert [] + [rate] == [rate];
    } else {
      var next := Accumulate(presentValue, rates[0]);
      var longer := rates + [rate];
      assert longer[0] == rates[0];
      assert longer[1..] == rates[1..] + [rate];
      calc {
        FromPvAndExpectedRates(presentValue, longer);
        { FoldStep(presentValue, longer); }
        FromPvAndExpectedRates(Accumulate(presentValue, longer[0]), longer[1..]);
        FromPvAndExpectedRates(next, rates[1..] + [rate]);
        { CompoundOneMore(next, rates[1..], rate); }
        FromPvAndExpectedRates(next, rates[1..]) * (1.0 + rate);
        { FoldStep(presentValue, rates); }
        FromPvAndExpectedRates(presentValue, rates) * (1.0 + rate);
      }
    }
  }

  /** The future value is the present value times the growth factor. */
  lemma {:induction false} FutureValueIsGrowth(presentValue: real, rates: seq<real>)
    ensures FromPvAndExpectedRates(presentValue, rates) == presentValue * Growth(rates)
    decreases |rates|
  {
    if rates != [] {
      FutureValueIsGrowth(Accumulate(presentValue, rates[0]), rates[1..]);
    }
  }

  /** Scaling the present value scales the future value. */
  lemma FutureValueLinear(k: real, presentValue: real, rates: seq<real>)
    ensures FromPvAndExpectedRates(k * presentValue, rates)
         == k * FromPvAndExpectedRates(presentValue, rates)
  {
    FutureValueIsGrowth(k * presentValue, rates);
    FutureValueIsGrowth(presentValue, rates);
  }

  lemma {:induction false} GrowthAppend(xs: seq<real>, ys: seq<real>)
    ensures Growth(xs + ys) == Growth(xs) * Growth(ys)
    decreases |xs|
  {
    if xs == [] {
      assert [] + ys == ys;
    } else {
      assert (xs + ys)[1..] == xs[1..] + ys;
      GrowthAppend(xs[1..], ys);
    }
  }

  /** Moving one rate from the middle of the sequence to its front does not
      change the growth factor. */
  lemma {:induction false} GrowthRemove(ys: seq<real>, j: nat)
    requires j < |ys|
    ensures Growth(ys) == Growth([ys[j]] + (ys[..j] + ys[j + 1..]))
  {
    var pre, y, post := ys[..j], ys[j], ys[j + 1..];
    assert ys == pre + ([y] + post);
    GrowthAppend(pre, [y] + post);
    GrowthCons(y, post);
    GrowthAppend(pre, post);
    GrowthCons(y, pre + post);
    Reassociate(Growth(pre), 1.0 + y, Growth(post));
  }

  lemma Reassociate(a: real, b: real, c: real)
    ensures a * (b * c) == b * (a * c)
  {
  }

  lemma MultisetRemove(ys: seq<real>, j: nat)
    requires j < |ys|
    ensures multiset(ys[..j] + ys[j + 1..]) == multiset(ys) - multiset{ys[j]}
  {
    assert ys == ys[..j] + [ys[j]] + ys[j + 1..];
  }

  /** Equal growth factors stay equal when the same rate is put in front of both. */
  lemma GrowthSameHead(x: real, xs: seq<real>, ys: seq<real>)
    requires Growth(xs) == Growth(ys)
    ensures Growth([x] + xs) == Growth([x] + ys)
  {
    assert ([x] + xs)[1..] == xs;
    assert ([x] + ys)[1..] == ys;
  }

  lemma {:induction false} GrowthPermutation(xs: seq<real>, ys: seq<real>)
    requires multiset(xs) == multiset(ys)
    ensures Growth(xs) == Growth(ys)
    decreases |xs|
  {
    if xs != [] {
      var j := MatchHead(xs, ys);
      var rest := ys[..j] + ys[j + 1..];
      GrowthPermutation(xs[1..], rest);
      GrowthSameHead(xs[0], xs[1..], rest);
      assert [xs[0]] + xs[1..] == xs;
      GrowthRemove(ys, j);
    } else {
      assert |ys| == |multiset(ys)| == 0;
    }
  }

  /** The first element of `xs` occurs in a permutation `ys` of it, and what
      remains of each once it is removed are permutations of each other. */
  lemma MatchHead(xs: seq<real>, ys: seq<real>) returns (j: nat)
    requires xs != [] && multiset(xs) == multiset(ys)
    ensures j < |ys| && ys[j] == xs[0]
    ensures multiset(xs[1..]) == multiset(ys[..j] + ys[j + 1..])
  {
    assert xs[0] in multiset(ys);
    j :| 0 <= j < |ys| && ys[j] == xs[0];
    MultisetRemove(xs, 0);
    MultisetRemove(ys, j);
    assert xs[..0] + xs[1..] == xs[1..];
  }

  /** Reordering the rates does not change the future value. */
  lemma RateOrderIrrelevant(presentValue: real, rates: seq<real>, reordered: seq<real>)
    requires multiset(rates) == multiset(reordered)
    ensures FromPvAndExpectedRates(presentValue, rates)
         == FromPvAndExpectedRates(presentValue, reordered)
  {
    FutureValueIsGrowth(presentValue, rates);
    FutureValueIsGrowth(presentValue, reordered);
    GrowthPermutation(rates, reordered);
  }

  /** The doc examples: 10 at 100%, 200%, 300% is exactly 240; 10 at 10% for three
      periods is 13.31. */
  lemma FutureValueExamples()
    ensures FromPvAndExpectedRates(10.0, [1.0, 2.0, 3.0]) == 240.0
    ensures Abs(FromPvAndExpectedRates(10.0, [0.1, 0.1, 0.1]) - 13.31) < 0.001
  {
    assert [1.0, 2.0, 3.0][1..] == [2.0, 3.0];
    assert [2.0, 3.0][1..] == [3.0];
    assert [0.1, 0.1, 0.1][1..] == [0.1, 0.1];
    assert [0.1, 0.1][1..] == [0.1];
  }
}
