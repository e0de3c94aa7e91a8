/** The battery charge estimator: a raw reading of the battery divider is
    mapped linearly onto 0..100 percent between two calibration points and
    clamped outside them. Floats are modelled as reals. */
module Charge {

  /** Raw ADC count of a full battery. */
  const MaxRawVoltage: nat := 814
  /** Raw ADC count of an empty battery; readings at or below it are not sent. */
  const MinRawVoltage: nat := 605

  /** `analogRead(A0)` widened to float. */
  function MeasureRawBatteryVoltage(adc: nat): (raw: real)
    ensures raw.Floor == adc && raw == raw.Floor as real
  {
    adc as real
  }

  function CalculateBatteryChargeInPercent(rawVoltage: real): (percentage: real)
    ensures 0.0 <= percentage <= 100.0
  {
    var maxRange := (MaxRawVoltage - MinRawVoltage) as real;
    var p := ((rawVoltage - MinRawVoltage as real) / maxRange) * 100.0;
    var p := if p > 100.0 then 100.0 else p;
    if p < 0.0 then 0.0 else p
  }

  /** An empty or under-voltage battery reads as 0 percent. */
  lemma ChargeAtOrBelowMinimum(rawVoltage: real)
    requires rawVoltage <= MinRawVoltage as real
    ensures CalculateBatteryChargeInPercent(rawVoltage) == 0.0
  {
  }

  /** A reading at or above the full mark reads as 100 percent. */
  lemma ChargeAtOrAboveMaximum(rawVoltage: real)
    requires rawVoltage >= MaxRawVoltage as real
    ensures CalculateBatteryChargeInPercent(rawVoltage) == 100.0
  {
  }

  /** Strictly between the calibration points the charge is the straight line
      through (605, 0) and (814, 100), and strictly inside 0..100. */
  lemma ChargeBetweenCalibrationPoints(rawVoltage: real)
    requires MinRawVoltage as real < rawVoltage < MaxRawVoltage as real
    ensures CalculateBatteryChargeInPercent(rawVoltage) == (rawVoltage - 605.0) / 209.0 * 100.0
    ensures 0.0 < CalculateBatteryChargeInPercent(rawVoltage) < 100.0
  {
  }

  /** Every reading above the minimum gives a positive charge. */
  lemma ChargePositiveAboveMinimum(rawVoltage: real)
    requires rawVoltage > MinRawVoltage as real
    ensures CalculateBatteryChargeInPercent(rawVoltage) > 0.0
  {
  }

  /** A higher reading never gives a lower charge. */
  lemma ChargeMonotonic(a: real, b: real)
    requires a <= b
    ensures CalculateBatteryChargeInPercent(a) <= CalculateBatteryChargeInPercent(b)
  {
  }

  /** Between the calibration points a higher reading gives a strictly higher
      charge, so the estimate distinguishes every reading there. */
  lemma ChargeStrictlyIncreasingInRange(a: real, b: real)
    requires MinRawVoltage as real <= a < b <= MaxRawVoltage as real
    ensures CalculateBatteryChargeInPercent(a) < CalculateBatteryChargeInPercent(b)
  {
  }

  /** Half-way between the calibration points the charge is 50 percent. */
  lemma ChargeAtMidpoint()
    ensures CalculateBatteryChargeInPercent((MinRawVoltage + MaxRawVoltage) as real / 2.0) == 50.0
  {
  }
}
