/** The record a bracket search returns: two rates with their NPVs, the
    iteration budget and how much of it was used, and a validity flag. */
module InitialBoundsRecord {
  import opened Numeric

  /** `InitialBounds::new` is the constructor and each getter is the field of the
      same name; nothing is checked when a record is built. */
  datatype InitialBounds = InitialBounds(
    rateLow: real,
    npvRateLow: real,
    rateHigh: real,
    npvRateHigh: real,
    iterationLimit: i16,
    iterationsRun: i16,
    isValid: bool)

  /** Every getter hands back exactly what was given to the constructor. */
  lemma GettersReturnArguments(rateLow: real, npvRateLow: real, rateHigh: real, npvRateHigh: real,
                               iterationLimit: i16, iterationsRun: i16, isValid: bool)
    ensures var b := InitialBounds(rateLow, npvRateLow, rateHigh, npvRateHigh, iterationLimit, iterationsRun, isValid);
      && b.rateLow == rateLow && b.npvRateLow == npvRateLow
      && b.rateHigh == rateHigh && b.npvRateHigh == npvRateHigh
      && b.iterationLimit == iterationLimit && b.iterationsRun == iterationsRun
      && b.isValid == isValid
  {
  }

  /** The constructor does no validation: the doc example stores `true` for a
      pair of NPVs of the same sign. */
  lemma NoValidation()
    ensures var b := InitialBounds(0.01, 1.00, 0.02, 2.00, 100, 24, true);
      b.isValid && 0.0 < b.npvRateLow * b.npvRateHigh && b.iterationsRun < b.iterationLimit
  {
  }
}
