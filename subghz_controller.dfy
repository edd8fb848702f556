/** The CC1101 sensor controller (src/controller/main.rs): each pass of the
    main loop converts one ADC1 reading to a percentage, drives the LED from it
    and transmits it in a four-byte packet tagged with a byte of its CRC-16. */
module SubGhzController {
  import opened Hal
  import AdcDisplay
  import opened SubGhzPacket

  /** `((sensor_val * 100) / 4096) as u8`: the display percentage cut to a byte. */
  function SensorPercent(sensorVal: u16): (pcnt: u8)
    ensures sensorVal < AdcDisplay.ADC_FULL_SCALE ==> pcnt == AdcDisplay.Percent(sensorVal) <= 99
  {
    TruncateU8(AdcDisplay.Percent(sensorVal))
  }

  /** A larger 12-bit reading never transmits a smaller percentage. */
  lemma SensorPercentMonotone(a: u16, b: u16)
    requires a <= b < AdcDisplay.ADC_FULL_SCALE
    ensures SensorPercent(a) <= SensorPercent(b)
  {
  }

  /** Fixed bytes that open every packet. */
  const PACKET_HEADER: seq<u8> := [0x01, 0x02]

  /** The packet `[0x01, 0x02, sensor_pcnt, hash[0]]` handed to `radio.transmit`. */
  function Packet(crc: Crc16, pcnt: u8): (p: seq<u8>)
    ensures |p| == 4 && p[..2] == PACKET_HEADER
    ensures p[2] == pcnt
    ensures p[3] == crc([pcnt]) % 0x100
  {
    PACKET_HEADER + [pcnt, Tag(crc, pcnt)]
  }

  /** The main loop, one pass per ADC reading. `sent[i]` is the packet
      transmitted and `leds[i]` the LED level set on the i-th pass. */
  method ControllerLoop(crc: Crc16, readings: seq<u16>) returns (sent: seq<seq<u8>>, leds: seq<Level>)
    ensures |sent| == |readings| && |leds| == |readings|
    ensures forall i :: 0 <= i < |readings| ==>
      sent[i] == Packet(crc, SensorPercent(readings[i])) && leds[i] == LedFor(SensorPercent(readings[i]))
  {
    sent, leds := [], [];
    for i := 0 to |readings|
      invariant |sent| == i && |leds| == i
      invariant forall k :: 0 <= k < i ==>
        sent[k] == Packet(crc, SensorPercent(readings[k])) && leds[k] == LedFor(SensorPercent(readings[k]))
    {
      var sensorVal := readings[i];
      var sensorPcnt := TruncateU8((sensorVal * 100) / AdcDisplay.ADC_FULL_SCALE);
      var led := if sensorPcnt > 50 then Low else High;
      var hash := LeU16(crc([sensorPcnt]));
      var packet := [0x01, 0x02, sensorPcnt, hash[0]];
      sent := sent + [packet];
      leds := leds + [led];
    }
  }
}
