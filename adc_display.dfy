/** The display-only build (src/main.rs): each pass of the main loop takes one
    ADC1 conversion and shows it as a percentage of the 12-bit full scale. */
module AdcDisplay {
  import opened Hal

  /** Full scale of the 12-bit ADC1 conversion. */
  const ADC_FULL_SCALE: nat := 4096

  /** `(sensor_val * 100) / 4096` on `u32`, where `sensor_val` is the 16-bit
      DATA field of ADC1's data register widened to `u32`. The product is
      computed with a checked multiplication: its precondition is the proof
      that `sensor_val * 100` cannot overflow. */
  function Percent(sensorVal: u16): (pcnt: u32)
    ensures pcnt * ADC_FULL_SCALE <= sensorVal * 100 < (pcnt + 1) * ADC_FULL_SCALE
    ensures sensorVal < ADC_FULL_SCALE ==> pcnt <= 99
  {
    MulU32(sensorVal, 100) / ADC_FULL_SCALE
  }

  /** A larger reading never shows a smaller percentage. */
  lemma PercentMonotone(a: u16, b: u16)
    requires a <= b
    ensures Percent(a) <= Percent(b)
  {
  }

  /** The main loop, one pass per ADC reading: `shown[i]` is the percentage
      drawn on the display after the i-th conversion. */
  method DisplayLoop(readings: seq<u16>) returns (shown: seq<u32>)
    ensures |shown| == |readings|
    ensures forall i :: 0 <= i < |readings| ==> shown[i] == Percent(readings[i])
  {
    shown := [];
    for i := 0 to |readings|
      invariant |shown| == i
      invariant forall k :: 0 <= k < i ==> shown[k] == Percent(readings[k])
    {
      var sensorVal := readings[i];
      var sensorPcnt := (sensorVal * 100) / ADC_FULL_SCALE;
      shown := shown + [sensorPcnt];
    }
  }
}
