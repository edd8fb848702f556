/** The CC1101 receiver (src/receiver/main.rs): each received packet whose
    CRC tag matches its value byte is forwarded over USART1 to a VESC motor
    controller as a "set duty cycle" command, and drives the LED. */
module SubGhzReceiver {
  import opened Hal
  import opened SubGhzPacket

  /** Size of the `radio_payload` buffer that `read_fifo` fills. */
  const RX_BUFFER_LEN: nat := 12

  /** The receiver's check: byte 3 must be the tag of byte 2. */
  predicate TagMatches(crc: Crc16, payload: seq<u8>)
    requires |payload| == RX_BUFFER_LEN
    ensures TagMatches(crc, payload) <==> payload[3] == crc([payload[2]]) % 0x100
  {
    payload[3] == Tag(crc, payload[2])
  }

  /** Framing bytes of a short VESC UART packet. */
  const VESC_START: u8 := 0x02
  const VESC_END: u8 := 0x03
  /** The VESC firmware's "set duty cycle" command. */
  const COMM_SET_DUTY: u8 := 0x05
  /** The duty field is the received percentage scaled by this factor. */
  const DUTY_SCALE: nat := 1000

  /** `(radio_payload[2] as u32) * 1000`; the checked product never overflows
      and always leaves the top byte of the 32-bit word clear. */
  function Duty(value: u8): (d: u32)
    ensures d / DUTY_SCALE == value && d % DUTY_SCALE == 0
    ensures d <= 255_000 < 0x100_0000
  {
    MulU32(value, DUTY_SCALE)
  }

  /** `vesc_payload`: the command byte followed by the big-endian duty. */
  function SetDutyPayload(duty: u32): (p: seq<u8>)
    ensures |p| == 5 && p[0] == COMM_SET_DUTY
    ensures ReadBeU32(p[1..]) == duty
  {
    [COMM_SET_DUTY] + BeU32(duty)
  }

  /** Short VESC UART framing of `payload`: start byte, payload length,
      payload, big-endian CRC-16 of the payload, end byte. */
  function Frame(crc: Crc16, payload: seq<u8>): (f: seq<u8>)
    requires |payload| < 0x100
    ensures |f| == |payload| + 5
    ensures f[0] == VESC_START && f[1] == |payload| && f[|f| - 1] == VESC_END
    ensures f[2..|payload| + 2] == payload
    ensures 0x100 * f[|payload| + 2] as int + f[|payload| + 3] as int == crc(payload)
  {
    [VESC_START, |payload|] + payload + BeU16(crc(payload)) + [VESC_END]
  }

  /** Reads a short VESC frame back: the payload if the framing, the length
      byte and the checksum are all consistent, otherwise nothing. */
  function ParseFrame(crc: Crc16, f: seq<u8>): (r: Option<seq<u8>>)
    ensures r.Some? ==> |r.value| < 0x100
  {
    if |f| < 2 || f[0] != VESC_START || |f| != f[1] as int + 5 then None
    else
      var n := f[1] as int;
      var payload := f[2..n + 2];
      if f[n + 2..n + 4] == BeU16(crc(payload)) && f[n + 4] == VESC_END then Some(payload) else None
  }

  /** Reads a "set duty cycle" payload back to its duty. */
  function ParseSetDuty(p: seq<u8>): (r: Option<u32>)
  {
    if |p| == 5 && p[0] == COMM_SET_DUTY then Some(ReadBeU32(p[1..])) else None
  }

  /** Parsing inverts framing. */
  lemma FrameRoundTrip(crc: Crc16, payload: seq<u8>)
    requires |payload| < 0x100
    ensures ParseFrame(crc, Frame(crc, payload)) == Some(payload)
  {
  }

  /** Framing inverts parsing: a frame the parser accepts is exactly the
      framing of the payload it returns, so no other byte string is accepted. */
  lemma ParseFrameExact(crc: Crc16, f: seq<u8>)
    requires ParseFrame(crc, f).Some?
    ensures f == Frame(crc, ParseFrame(crc, f).value)
  {
  }

  /** A "set duty cycle" payload parses to exactly the duties it encodes. */
  lemma SetDutyRoundTrip(duty: u32, p: seq<u8>)
    ensures ParseSetDuty(p) == Some(duty) <==> p == SetDutyPayload(duty)
  {
  }

  /** The bytes written to USART1 for an accepted packet carrying `value`. */
  function DutyFrame(crc: Crc16, value: u8): (f: seq<u8>)
    ensures |f| == 10 && f[0] == VESC_START && f[1] == 5 && f[2] == COMM_SET_DUTY && f[9] == VESC_END
    ensures f[3] == 0
    ensures 0x100 * f[7] as int + f[8] as int == crc(f[2..7])
    ensures ParseFrame(crc, f).Some? && ParseSetDuty(ParseFrame(crc, f).value) == Some(value * DUTY_SCALE)
  {
    var payload := SetDutyPayload(Duty(value));
    FrameRoundTrip(crc, payload);
    SetDutyRoundTrip(Duty(value), payload);
    Frame(crc, payload)
  }

  /** What one received packet produces on the serial line: the VESC frame
      when the tag matches, nothing when it does not. */
  function Response(crc: Crc16, payload: seq<u8>): (r: Option<seq<u8>>)
    requires |payload| == RX_BUFFER_LEN
    ensures r.Some? <==> TagMatches(crc, payload)
    ensures r.Some? ==> (ParseFrame(crc, r.value).Some? &&
                         ParseSetDuty(ParseFrame(crc, r.value).value) == Some(payload[2] * DUTY_SCALE))
  {
    if TagMatches(crc, payload) then Some(DutyFrame(crc, payload[2])) else None
  }

  /** The receiver's mutable board state: the USART1 transmit line, the LED
      pin and the count of RX FIFO flush strobes (SFRX) issued to the radio. */
  class Receiver {
    var serial: seq<u8>
    var led: Level
    var rxFlushes: nat

    /** After bring-up: nothing sent, LED high, RX FIFO flushed once. */
    constructor ()
      ensures serial == [] && led == High && rxFlushes == 1
    {
      serial, led, rxFlushes := [], High, 1;
    }

    /** `block!(tx.write(byte))`: one byte onto the serial line. */
    method Write(b: u8)
      modifies this`serial
      ensures serial == old(serial) + [b]
    {
      serial := serial + [b];
    }

    /** One pass of the main loop after `read_fifo` filled `payload`: check
        the tag, on a match write the VESC frame byte by byte and set the LED,
        and in every case flush the RX FIFO. */
    method OnPacket(crc: Crc16, payload: seq<u8>)
      requires |payload| == RX_BUFFER_LEN
      modifies this
      ensures TagMatches(crc, payload) ==>
        serial == old(serial) + DutyFrame(crc, payload[2]) && led == LedFor(payload[2])
      ensures !TagMatches(crc, payload) ==> serial == old(serial) && led == old(led)
      ensures Response(crc, payload).Some? ==> serial == old(serial) + Response(crc, payload).value
      ensures rxFlushes == old(rxFlushes) + 1
    {
      var radioHash := LeU16(crc([payload[2]]));
      if payload[3] == radioHash[0] {
        var dutyCycleBuf := BeU32(MulU32(payload[2], 1000));
        var vescPayload := [0x05, dutyCycleBuf[0], dutyCycleBuf[1], dutyCycleBuf[2], dutyCycleBuf[3]];
        var vescPayloadHash := BeU16(crc(vescPayload));
        Write(0x02);
        Write(|vescPayload|);
        for i := 0 to |vescPayload|
          invariant serial == old(serial) + [0x02, |vescPayload|] + vescPayload[..i]
          invariant led == old(led) && rxFlushes == old(rxFlushes)
        {
          Write(vescPayload[i]);
        }
        Write(vescPayloadHash[0]);
        Write(vescPayloadHash[1]);
        Write(0x03);
        assert vescPayload == SetDutyPayload(Duty(payload[2]));
        led := if payload[2] > 50 then Low else High;
      }
      rxFlushes := rxFlushes + 1;
    }

    /** One pass of the main loop: `rx` is the packet `read_fifo` delivered
        when `rx_bytes_available` succeeded, or nothing when it failed, in
        which case the pass has no effect. */
    method Poll(crc: Crc16, rx: Option<seq<u8>>)
      requires rx.Some? ==> |rx.value| == RX_BUFFER_LEN
      modifies this
      ensures rx.None? ==> serial == old(serial) && led == old(led) && rxFlushes == old(rxFlushes)
      ensures rx.Some? ==> rxFlushes == old(rxFlushes) + 1
      ensures rx.Some? ==> serial == old(serial) + (var r := Response(crc, rx.value); if r.Some? then r.value else [])
      ensures rx.Some? && TagMatches(crc, rx.value) ==> led == LedFor(rx.value[2])
      ensures rx.Some? && !TagMatches(crc, rx.value) ==> led == old(led)
    {
      if rx.Some? {
        OnPacket(crc, rx.value);
      }
    }
  }
}
