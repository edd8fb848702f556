/** The controller and the receiver of the CC1101 build taken together: what
    the controller transmits is what the receiver accepts and forwards. */
module SubGhzLink {
  import opened Hal
  import AdcDisplay
  import opened SubGhzPacket
  import opened SubGhzController
  import opened SubGhzReceiver

  /** A receive buffer whose first four bytes are a transmitted packet. */
  predicate Carries(rx: seq<u8>, packet: seq<u8>)
  {
    |rx| == RX_BUFFER_LEN && |packet| <= |rx| && rx[..|packet|] == packet
  }

  /** If the bytes keep their positions, every packet the controller builds
      passes the receiver's tag check, whatever the checksum function is. */
  lemma PacketPassesTagCheck(crc: Crc16, pcnt: u8, rx: seq<u8>)
    requires Carries(rx, Packet(crc, pcnt))
    ensures TagMatches(crc, rx)
  {
  }

  /** End to end: a 12-bit reading `v` sampled by the controller reaches the
      VESC as the duty `percent(v) * 1000`, and both LEDs show the same level. */
  lemma ReadingReachesVesc(crc: Crc16, v: u16, rx: seq<u8>)
    requires v < AdcDisplay.ADC_FULL_SCALE
    requires Carries(rx, Packet(crc, SensorPercent(v)))
    ensures Response(crc, rx).Some?
    ensures ParseFrame(crc, Response(crc, rx).value).Some?
    ensures ParseSetDuty(ParseFrame(crc, Response(crc, rx).value).value) == Some(AdcDisplay.Percent(v) * DUTY_SCALE)
    ensures LedFor(rx[2]) == LedFor(SensorPercent(v))
  {
  }
}
