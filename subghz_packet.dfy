/** What the two CC1101 binaries (src/controller/main.rs and
    src/receiver/main.rs) agree on: the one-byte CRC tag that protects the
    sensor value, and the LED threshold both of them apply to it. */
module SubGhzPacket {
  import opened Hal

  /** `hash[0]` after `LittleEndian::write_u16(&mut hash, crc)` where `crc` is
      the CRC-16 of the single byte `value`: the low byte of that checksum. */
  function Tag(crc: Crc16, value: u8): (t: u8)
    ensures t == crc([value]) % 0x100
  {
    LeU16(crc([value]))[0]
  }

  /** Threshold above which both boards pull the LED pin low. */
  const LED_THRESHOLD: u8 := 50

  /** Pin level for a percentage: low when it exceeds the threshold, high otherwise. */
  function LedFor(value: u8): (level: Level)
    ensures level == Low <==> value > LED_THRESHOLD
  {
    if value > LED_THRESHOLD then Low else High
  }
}
