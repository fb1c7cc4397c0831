/** The bracket finder `determine`: starting from a tiny interval around a
    guess, step away from the guess with a doubling step, always in the
    direction chosen at the start, until the NPVs at the two ends no longer
    have the same strict sign or the iteration budget is spent. */
module InitialBoundsFinder {
  import opened Numeric
  import opened InitialBoundsRecord

  /** `generate_epsilon_multiple`: double the step multiple, saturating at the
      largest finite value. */
  function GenerateEpsilonMultiple(multiple: real): (r: real)
    ensures multiple < MAXV / 2.0 ==> r == 2.0 * multiple
    ensures MAXV / 2.0 <= multiple ==> r == MAXV
    ensures r <= MAXV
    ensures 0.0 < multiple <= MAXV ==> multiple <= r
    ensures 0.0 < multiple ==> 0.0 < r
  {
    if multiple < MAXV / 2.0 then multiple * 2.0 else MAXV
  }

  /** The search state between two loop tests: the two ends and the current
      multiple of epsilon. */
  datatype Bracket = Bracket(low: real, high: real, multiple: real)

  /** The first bracket: the guess plus or minus ten epsilon. */
  function Initial(guess: real): Bracket
  {
    Bracket(guess - 10.0 * EPS, guess + 10.0 * EPS, 10.0)
  }

  /** One step of the loop: double the multiple, then move the bracket down
      (its old low end becomes the high end) or up (its old high end becomes
      the low end). The new bracket is the new multiple of epsilon wide. */
  function Advance(b: Bracket, goLow: bool): (r: Bracket)
    ensures goLow ==> r.high == b.low
    ensures !goLow ==> r.low == b.high
    ensures r.high - r.low == r.multiple * EPS
  {
    var multiple := GenerateEpsilonMultiple(b.multiple);
    if goLow then Bracket(b.low - multiple * EPS, b.low, multiple)
    else Bracket(b.high, b.high + multiple * EPS, multiple)
  }

  /** The bracket after `k` steps: always a proper interval with a positive
      multiple. */
  function Walk(guess: real, goLow: bool, k: nat): (r: Bracket)
    ensures r.low < r.high
    ensures 0.0 < r.multiple
  {
    if k == 0 then Initial(guess) else Advance(Walk(guess, goLow, k - 1), goLow)
  }

  /** The direction, fixed once: downwards when the NPV at the lower end of the
      first bracket is strictly smaller in magnitude. */
  predicate GoLow(npvAt: real -> real, guess: real)
  {
    Abs(npvAt(Initial(guess).low)) < Abs(npvAt(Initial(guess).high))
  }

  /** Two NPVs whose product is not positive: they do not share a strict sign. */
  predicate OppositeOrZero(npvLow: real, npvHigh: real)
  {
    npvLow * npvHigh <= 0.0
  }

  /** The NPVs at the two ends of the bracket do not share a strict sign. */
  predicate Straddles(npvAt: real -> real, b: Bracket)
  {
    OppositeOrZero(npvAt(b.low), npvAt(b.high))
  }

  /** The guess is accepted at once when its NPV is strictly inside the precision. */
  predicate CloseToZero(npv: real)
  {
    Abs(npv) < NPV_PRECISION
  }

  /** The multiple is ten times 2^k until that reaches the saturation value. */
  lemma {:induction false} WalkMultiple(guess: real, goLow: bool, k: nat)
    ensures Walk(guess, goLow, k).multiple == MinReal(10.0 * Pow2(k), MAXV)
  {
    if k > 0 {
      WalkMultiple(guess, goLow, k - 1);
      assert Pow2(k) == 2.0 * Pow2(k - 1);
    }
  }

  /** A downward step hands the old low end to the high end and strictly lowers
      the low end; an upward step hands the old high end to the low end and
      strictly raises the high end. */
  lemma StepDirection(guess: real, goLow: bool, k: nat)
    ensures var b, c := Walk(guess, goLow, k), Walk(guess, goLow, k + 1);
      if goLow then c.high == b.low && c.low < b.low
      else c.low == b.high && b.high < c.high
  {
  }

  /** `determine`. The NPV evaluator is the parameter `npvAt`. */
  method Determine(npvAt: real -> real, rateGuess: real, iterationLimit: i16) returns (r: InitialBounds)
    ensures r.iterationLimit == iterationLimit
    ensures CloseToZero(npvAt(rateGuess)) ==>
      r == InitialBounds(rateGuess, npvAt(rateGuess), rateGuess, npvAt(rateGuess), iterationLimit, 0, true)
    ensures !CloseToZero(npvAt(rateGuess)) ==>
      && 0 <= r.iterationsRun as int <= Max(0, iterationLimit as int)
      && var b := Walk(rateGuess, GoLow(npvAt, rateGuess), r.iterationsRun as nat);
      && r.rateLow == b.low && r.rateHigh == b.high
      && r.npvRateLow == npvAt(b.low) && r.npvRateHigh == npvAt(b.high)
      && (r.isValid ==> r.iterationsRun < iterationLimit && Straddles(npvAt, b))
      && (!r.isValid ==> r.iterationsRun as int == Max(0, iterationLimit as int))
      && forall j: nat :: j < r.iterationsRun as nat ==> !Straddles(npvAt, Walk(rateGuess, GoLow(npvAt, rateGuess), j))
  {
    var npvRateGuess := npvAt(rateGuess);
    if Abs(npvRateGuess) < NPV_PRECISION {
      return InitialBounds(rateGuess, npvRateGuess, rateGuess, npvRateGuess, iterationLimit, 0, true);
    }

    var epsilonMultiple := 10.0;
    var rateLow := rateGuess - epsilonMultiple * EPS;
    var rateHigh := rateGuess + epsilonMultiple * EPS;
    var npvRateLow := npvAt(rateLow);
    var npvRateHigh := npvAt(rateHigh);
    var iterationsRun: i16 := 0;
    var goLow := Abs(npvRateLow) < Abs(npvRateHigh);

    while iterationsRun < iterationLimit
      invariant 0 <= iterationsRun as int <= Max(0, iterationLimit as int)
      invariant goLow == GoLow(npvAt, rateGuess)
      invariant Bracket(rateLow, rateHigh, epsilonMultiple) == Walk(rateGuess, goLow, iterationsRun as nat)
      invariant npvRateLow == npvAt(rateLow) && npvRateHigh == npvAt(rateHigh)
      invariant forall j: nat :: j < iterationsRun as nat ==> !Straddles(npvAt, Walk(rateGuess, goLow, j))
    {
      if OppositeOrZero(npvRateLow, npvRateHigh) {
        return InitialBounds(rateLow, npvRateLow, rateHigh, npvRateHigh, iterationLimit, iterationsRun, true);
      }

      ghost var before := Bracket(rateLow, rateHigh, epsilonMultiple);
      epsilonMultiple := GenerateEpsilonMultiple(epsilonMultiple);

      if goLow {
        rateHigh := rateLow;
        rateLow := rateLow - epsilonMultiple * EPS;
      } else {
        rateLow := rateHigh;
        rateHigh := rateHigh + epsilonMultiple * EPS;
      }

      npvRateLow := npvAt(rateLow);
      npvRateHigh := npvAt(rateHigh);

      assert Bracket(rateLow, rateHigh, epsilonMultiple) == Advance(before, goLow);
      iterationsRun := iterationsRun + 1;
    }

    return InitialBounds(rateLow, npvRateLow, rateHigh, npvRateHigh, iterationLimit, iterationsRun, false);
  }
}
