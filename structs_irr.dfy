/** The record a bisection returns: the final bracket with its NPVs, the
    iteration budget and count, the IRR estimate with its NPV (NaN, here
    `None`, when no bisection took place) and a validity flag. */
module IrrRecord {
  import opened Numeric

  /** `Irr::new` is the constructor; `rate_low()` and the `get_*` getters are
      the fields of the same name. `is_valid` is stored, never recomputed. */
  datatype Irr = Irr(
    rateLow: real,
    npvRateLow: real,
    rateHigh: real,
    npvRateHigh: real,
    iterationLimit: i16,
    iterationsRun: i16,
    irr: Option<real>,
    npv: Option<real>,
    isValid: bool)

  /** Every getter hands back exactly what was given to the constructor. */
  lemma GettersReturnArguments(rateLow: real, npvRateLow: real, rateHigh: real, npvRateHigh: real,
                               iterationLimit: i16, iterationsRun: i16,
                               irr: Option<real>, npv: Option<real>, isValid: bool)
    ensures var x := Irr(rateLow, npvRateLow, rateHigh, npvRateHigh, iterationLimit, iterationsRun, irr, npv, isValid);
      && x.rateLow == rateLow && x.npvRateLow == npvRateLow
      && x.rateHigh == rateHigh && x.npvRateHigh == npvRateHigh
      && x.iterationLimit == iterationLimit && x.iterationsRun == iterationsRun
      && x.irr == irr && x.npv == npv && x.isValid == isValid
  {
  }

  /** The flag is stored, not derived from the NPV: the doc example stores
      `false` with an NPV of 1.5, and a record may equally store `false` beside
      an NPV of 0, which the precision test of the first doc example would call
      valid. */
  lemma ValidityIsStored()
    ensures var x := Irr(0.01, 1.0, 0.02, 2.0, 4, 3, Some(0.015), Some(1.5), false);
      && x.rateLow == 0.01 && x.rateHigh == 0.02
      && x.npvRateLow == 1.0 && x.npvRateHigh == 2.0
      && x.irr == Some(0.015) && x.iterationLimit == 4 && x.iterationsRun == 3
      && x.npv == Some(1.5) && !x.isValid
    ensures var y := Irr(0.01, 1.0, 0.02, 2.0, 4, 3, Some(0.015), Some(0.0), false);
      && y.npv == Some(0.0) && Abs(y.npv.value) <= NPV_PRECISION && !y.isValid
  {
  }
}
