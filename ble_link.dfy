/** The two nRF52810 builds taken together: the controller's beacon, seen by
    the receiver's scan callback, sets a pulse width that follows the sensor. */
module BeaconLink {
  import opened Hal
  import opened Ble
  import opened BeaconController
  import opened BeaconReceiver

  /** The receiver's whitelist admits the controller's beacons. */
  lemma BeaconsAreWhitelisted(val: u16)
    ensures BeaconFor(val).address == WHITELISTED_ADDRESS
  {
  }

  /** End to end: a 14-bit reading `val` broadcast by the controller loads
      the pulse `6990 + 2 * (val / 64)` into PWM0, inside the PWM period. */
  lemma ReadingSetsPulse(val: u16)
    requires val < SAADC_FULL_SCALE
    ensures CallbackAction(BeaconFor(val).ad) == SetPulse(PULSE_BASE + 2 * (val / BEACON_STEP))
    ensures PULSE_BASE + 2 * (val / BEACON_STEP) < PWM_COUNTERTOP
  {
  }

  /** A higher reading never produces a shorter pulse. */
  lemma PulseFollowsReading(lo: u16, hi: u16)
    requires lo <= hi < SAADC_FULL_SCALE
    ensures CallbackAction(BeaconFor(lo).ad).value <= CallbackAction(BeaconFor(hi).ad).value
  {
  }
}
