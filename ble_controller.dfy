/** The nRF52810 sensor controller (controller/src/main.rs): TIMER1 fires
    about fifty times a second; each firing samples the SAADC and broadcasts
    the reading, scaled to one byte, in a beacon. */
module BeaconController {
  import opened Hal
  import opened Ble

  /** Full scale of the SAADC in its 14-bit resolution. */
  const SAADC_FULL_SCALE: nat := 16384
  /** Readings per beacon byte step: 14 bits are cut to 8. */
  const BEACON_STEP: nat := 64
  /** AD type of the single structure in every beacon. */
  const BEACON_AD_TYPE: u8 := 0xFF

  /** `(val / 64) as u8`. */
  function BeaconByte(val: u16): (b: u8)
    ensures val < SAADC_FULL_SCALE ==> b == val / BEACON_STEP
  {
    TruncateU8(val / BEACON_STEP)
  }

  /** A larger 14-bit reading never yields a smaller beacon byte. */
  lemma BeaconByteMonotone(a: u16, b: u16)
    requires a <= b < SAADC_FULL_SCALE
    ensures BeaconByte(a) <= BeaconByte(b)
  {
  }

  /** Every byte value is the beacon byte of some 14-bit reading: the
      encoding spans 0..255 and `b * 64` is a reading that yields `b`. */
  lemma BeaconByteSpans(b: u8)
    ensures b * BEACON_STEP < SAADC_FULL_SCALE
    ensures BeaconByte(b * BEACON_STEP) == b
  {
  }

  /** The address the controller's link layer is created with. */
  const LINK_LAYER_ADDRESS: DeviceAddress := DeviceAddress([169, 255, 235, 206, 50, 121], Random)
  /** The address TIMER1 puts on every beacon. */
  const BEACON_ADDRESS: DeviceAddress := DeviceAddress([169, 255, 235, 206, 50, 121], Random)

  /** The beacon broadcast for reading `val`: the link layer's own address and one
      `Unknown` structure of type 0xFF whose only data byte is the beacon byte. */
  function BeaconFor(val: u16): (beacon: Beacon)
    ensures beacon.address == LINK_LAYER_ADDRESS
    ensures |beacon.ad| == 1 && beacon.ad[0].Unknown? && beacon.ad[0].ty == BEACON_AD_TYPE
    ensures beacon.ad[0].data == [BeaconByte(val)]
  {
    Beacon(BEACON_ADDRESS, [Unknown(BEACON_AD_TYPE, [BeaconByte(val)])])
  }

  /** Clock feeding TIMER1 and its prescaler exponent. */
  const HFCLK_HZ: nat := 16_000_000
  const BEACON_PRESCALER: nat := 9
  /** Beacons per second the compare value aims at. */
  const BEACONS_PER_SECOND: nat := 50

  /** `2^n`. Its only promise, `p >= 1`, makes the division in `TickRate`
      well defined. */
  function Pow2(n: nat): (p: nat)
    ensures p >= 1
  {
    if n == 0 then 1 else 2 * Pow2(n - 1)
  }

  /** TIMER1's tick rate for a prescaler exponent. */
  function TickRate(prescaler: nat): int
  {
    HFCLK_HZ / Pow2(prescaler)
  }

  /** `31_250 / 50`, the value written to TIMER1's CC[0]. */
  function BeaconCompare(): (c: nat)
    ensures c * BEACONS_PER_SECOND == TickRate(BEACON_PRESCALER)
    ensures c < 0x1_0000
  {
    31_250 / BEACONS_PER_SECOND
  }

  /** What a TIMER1 firing does to the hardware, in order. */
  datatype Timer1Step = AckCompare | SampleAdc | Broadcast(beacon: Beacon)

  /** The resources TIMER1 owns: the beacon timer's COMPARE[0] event flag and
      the record of what the handler did with the SAADC and the radio. */
  class BeaconApp {
    var compareEvent: bool
    var steps: seq<Timer1Step>

    constructor ()
      ensures !compareEvent && steps == []
    {
      compareEvent, steps := false, [];
    }

    /** The TIMER1 handler; `val` is the SAADC conversion it reads. The
        COMPARE[0] event is acknowledged before anything else happens. */
    method Timer1(val: u16)
      modifies this
      ensures !compareEvent
      ensures steps == old(steps) + [AckCompare, SampleAdc, Broadcast(BeaconFor(val))]
    {
      compareEvent := false;
      steps := steps + [AckCompare];
      steps := steps + [SampleAdc];
      var beacon := Beacon(BEACON_ADDRESS, [Unknown(0xFF, [TruncateU8(val / 64)])]);
      steps := steps + [Broadcast(beacon)];
    }
  }
}
