/** calculate_put_values of src/utils.py: a put premium split into
    intrinsic value and time value. */
module PutValues {
  import opened Common

  datatype PutValueSplit = PutValueSplit(intrinsicValue: real, timeValue: real)

  /** The intrinsic value is what exercising now would pay per share, never
      negative; the time value is the rest of the premium, so the two add
      back up to the premium. */
  function CalculatePutValues(strike: real, marketPrice: real, optionPrice: real): (r: PutValueSplit)
    ensures r.intrinsicValue >= 0.0
    ensures r.intrinsicValue + r.timeValue == optionPrice
    ensures strike <= marketPrice ==> r.intrinsicValue == 0.0
    ensures strike >= marketPrice ==> r.intrinsicValue == strike - marketPrice
  {
    var intrinsicValue := Max(strike - marketPrice, 0.0);
    PutValueSplit(intrinsicValue, optionPrice - intrinsicValue)
  }

  /** A premium below the intrinsic value leaves a negative time value;
      the source does not clamp it. */
  lemma TimeValueNegativeBelowIntrinsic(strike: real, marketPrice: real, optionPrice: real)
    requires strike > marketPrice && optionPrice < strike - marketPrice
    ensures CalculatePutValues(strike, marketPrice, optionPrice).timeValue < 0.0
  {
  }

  /** Out of the money, the whole premium is time value. */
  lemma OutOfTheMoneyIsAllTimeValue(strike: real, marketPrice: real, optionPrice: real)
    requires strike <= marketPrice
    ensures CalculatePutValues(strike, marketPrice, optionPrice).timeValue == optionPrice
  {
  }
}
