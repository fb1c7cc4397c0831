/** The starting bounds of `irr.rs`: a symmetric interval around zero whose
    outer end is the guess, and a bounds generator whose loop only counts. */
module IrrBounds {
  import opened Numeric

  /** `generate_initial_bounds`: zero gives (-1, 1); any other guess gives the
      interval symmetric about zero with the guess as one of its ends. */
  function GenerateInitialBounds(discountRateGuess: real): (r: (real, real))
    ensures r.0 < 0.0 < r.1 && r.0 == -r.1
    ensures discountRateGuess == 0.0 ==> r.1 == 1.0
    ensures discountRateGuess != 0.0 ==> r.1 == Abs(discountRateGuess)
    ensures discountRateGuess != 0.0 ==> (r.0 == discountRateGuess || r.1 == discountRateGuess)
  {
    if discountRateGuess == 0.0 then (-1.0, 1.0)
    else if discountRateGuess < 0.0 then (discountRateGuess, discountRateGuess * -1.0)
    else (discountRateGuess * -1.0, discountRateGuess)
  }

  /** The unit tests: zero, five positive and five negative guesses. */
  lemma GenerateInitialBoundsExamples(b: real)
    ensures GenerateInitialBounds(0.0) == (-1.0, 1.0)
    ensures 0.0 < b ==> GenerateInitialBounds(b) == (-b, b)
    ensures b < 0.0 ==> GenerateInitialBounds(b) == (b, -b)
  {
  }

  /** `generate_bounds`: the loop counts up to the limit and changes nothing,
      so the result is the initial bounds. The cash flows and the tolerance
      are not read. */
  method GenerateBounds(cashFlows: seq<real>, discountRateGuess: real, tolerance: real, limit: i16)
    returns (left: real, right: real)
    ensures (left, right) == GenerateInitialBounds(discountRateGuess)
    ensures left < right
  {
    left, right := GenerateInitialBounds(discountRateGuess).0, GenerateInitialBounds(discountRateGuess).1;

    var count: i16 := 0;

    while count < limit
    {
      count := count + 1;
    }
  }
}
