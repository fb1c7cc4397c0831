/** The first-generation bracket finder `calculate_initial_bounds_for_bisection`:
    keep a rate with one probe to its left and one to its right, and walk the
    triple towards the side whose NPV is nearer zero, doubling (or negating)
    the outer probe, until one neighbouring pair of NPVs does not share a
    strict sign. */
module BisectionInitialBounds {
  import opened Numeric
  import opened BisectionFunction

  /** `shift_rate`: a rate strictly to the left or strictly to the right of the
      given one. Away from zero it doubles the magnitude on the far side and
      negates the doubled rate on the near side; zero moves to -1 or 1. */
  function ShiftRate(rate: real, shiftLeft: bool): (r: real)
    ensures shiftLeft ==> r < rate
    ensures !shiftLeft ==> rate < r
    ensures rate == 0.0 ==> Abs(r) == 1.0
    ensures rate != 0.0 ==> Abs(r) == 2.0 * Abs(rate)
  {
    if rate < 0.0 then
      (if shiftLeft then rate * 2.0 else rate * -2.0)
    else if rate == 0.0 then
      (if shiftLeft then -1.0 else 1.0)
    else
      (if shiftLeft then rate * -2.0 else rate * 2.0)
  }

  /** The table of cases: zero goes to -1 and 1; a negative r to 2r and -2r; a
      positive r to -2r and 2r. */
  lemma ShiftRateCases(rate: real)
    ensures rate == 0.0 ==> ShiftRate(rate, true) == -1.0 && ShiftRate(rate, false) == 1.0
    ensures rate < 0.0 ==> ShiftRate(rate, true) == 2.0 * rate && ShiftRate(rate, false) == -2.0 * rate
    ensures 0.0 < rate ==> ShiftRate(rate, true) == -2.0 * rate && ShiftRate(rate, false) == 2.0 * rate
    ensures ShiftRate(rate, true) < rate < ShiftRate(rate, false)
  {
  }

  /** The three rates the loop keeps. */
  datatype Probe = Probe(left: real, rate: real, right: real)

  predicate Ordered(p: Probe)
  {
    p.left < p.rate < p.right
  }

  /** The NPVs of two rates do not share a strict sign. */
  predicate NotSameSign(x: real, y: real)
  {
    x * y <= 0.0
  }

  /** The first probe: the guess with one shift to each side. */
  function Start(guess: real): Probe
  {
    Probe(ShiftRate(guess, true), guess, ShiftRate(guess, false))
  }

  /** The tests made at every probe, in order: the rate's NPV equal enough to
      zero, then the left pair, then the right pair. A pair accepted at an
      ordered probe is a bracket: ordered ends whose NPVs do not share a strict
      sign, and a degenerate pair only at an exact root. */
  function Accept(npvAt: real -> real, p: Probe): (r: Option<(real, real)>)
    ensures r.Some? ==> r.value == (p.rate, p.rate) || r.value == (p.left, p.rate) || r.value == (p.rate, p.right)
    ensures Ordered(p) && r.Some? ==>
      var (a, b) := r.value;
      && a <= b && NotSameSign(npvAt(a), npvAt(b))
      && (a == b ==> npvAt(a) == 0.0)
  {
    var value := npvAt(p.rate);
    AreEqualEnoughZero(value);
    assert npvAt(p.left) * value == value * npvAt(p.left);
    if AreEqualEnough(value, 0.0) then Some((p.rate, p.rate))
    else if NotSameSign(value, npvAt(p.left)) then Some((p.left, p.rate))
    else if NotSameSign(value, npvAt(p.right)) then Some((p.rate, p.right))
    else None
  }

  /** The direction of a move: left when the rate's NPV is negative and the
      left NPV is the larger, or positive and the left NPV is the smaller. */
  predicate ShiftLeft(npvAt: real -> real, p: Probe)
  {
    var value := npvAt(p.rate);
    (value < 0.0 && npvAt(p.right) < npvAt(p.left)) || (0.0 < value && npvAt(p.left) < npvAt(p.right))
  }

  /** One move: the triple slides one place, and the new outer probe is a
      shift of the old outer one. An ordered probe stays ordered. */
  function Step(npvAt: real -> real, p: Probe): (r: Probe)
    ensures Ordered(p) ==> Ordered(r)
    ensures r.rate == p.left || r.rate == p.right
  {
    if ShiftLeft(npvAt, p) then Probe(ShiftRate(p.left, true), p.left, p.rate)
    else Probe(p.rate, p.right, ShiftRate(p.right, false))
  }

  /** Test the probe; if nothing is accepted and passes remain, move and go on.
      From an ordered probe, every pair found is ordered, its NPVs do not share
      a strict sign, and a degenerate pair is an exact root. */
  function Search(npvAt: real -> real, p: Probe, passes: nat): (r: Option<(real, real)>)
    ensures Ordered(p) && r.Some? ==>
      var (a, b) := r.value;
      && a <= b && NotSameSign(npvAt(a), npvAt(b))
      && (a == b ==> npvAt(a) == 0.0)
    decreases passes
  {
    match Accept(npvAt, p)
    case Some(bounds) => Some(bounds)
    case None => if passes == 0 then None else Search(npvAt, Step(npvAt, p), passes - 1)
  }

  /** The counter starts at 1 and the loop runs while it is below the limit. */
  function Passes(iterationLimit: i16): nat
  {
    if iterationLimit <= 1 then 0 else (iterationLimit - 1) as nat
  }

  lemma StartOrdered(guess: real)
    ensures Ordered(Start(guess))
  {
  }

  /** A guess whose NPV is equal enough to zero (which means exactly zero) is
      returned as both ends. */
  lemma GuessAtRoot(npvAt: real -> real, guess: real, passes: nat)
    requires npvAt(guess) == 0.0
    ensures Search(npvAt, Start(guess), passes) == Some((guess, guess))
  {
    AreEqualEnoughZero(npvAt(guess));
  }

  /** `calculate_initial_bounds_for_bisection`. The NPV evaluator is the
      parameter `npvAt`. */
  method CalculateInitialBoundsForBisection(npvAt: real -> real, guess: real, iterationLimit: i16)
    returns (r: Option<(real, real)>)
    ensures r == Search(npvAt, Start(guess), Passes(iterationLimit))
    ensures r.Some? ==>
      var (a, b) := r.value;
      a <= b && NotSameSign(npvAt(a), npvAt(b)) && (a == b ==> npvAt(a) == 0.0)
  {
    StartOrdered(guess);

    var rate := guess;
    var value := npvAt(rate);
    if AreEqualEnough(value, 0.0) {
      return Some((rate, rate));
    }

    var left := ShiftRate(rate, true);
    var valueLeft := npvAt(left);
    if NotSameSign(value, valueLeft) {
      return Some((left, rate));
    }

    var right := ShiftRate(rate, false);
    var valueRight := npvAt(right);
    if NotSameSign(value, valueRight) {
      return Some((rate, right));
    }

    var count: i16 := 1;
    while count < iterationLimit
      invariant 1 <= count
      invariant count <= iterationLimit || count == 1
      invariant value == npvAt(rate) && valueLeft == npvAt(left) && valueRight == npvAt(right)
      invariant Accept(npvAt, Probe(left, rate, right)).None?
      invariant Search(npvAt, Start(guess), Passes(iterationLimit))
             == Search(npvAt, Probe(left, rate, right), Passes(iterationLimit) - (count - 1) as nat)
    {
      ghost var before := Probe(left, rate, right);
      count := count + 1;

      var shiftLeft := (value < 0.0 && valueRight < valueLeft) || (0.0 < value && valueLeft < valueRight);

      if shiftLeft {
        right := rate;
        rate := left;
        left := ShiftRate(left, shiftLeft);

        valueRight := value;
        value := valueLeft;
        valueLeft := npvAt(left);
      } else {
        left := rate;
        rate := right;
        right := ShiftRate(right, shiftLeft);

        valueLeft := value;
        value := valueRight;
        valueRight := npvAt(right);
      }
      assert Probe(left, rate, right) == Step(npvAt, before);

      if AreEqualEnough(value, 0.0) {
        return Some((rate, rate));
      }

      if NotSameSign(value, valueLeft) {
        return Some((left, rate));
      }

      if NotSameSign(value, valueRight) {
        return Some((rate, right));
      }
    }

    return None;
  }
}
