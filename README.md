# bluefly: sensor-to-actuator data path, modelled in Dafny

bluefly is firmware for a wireless throttle: a controller board samples an
analogue sensor and sends the reading over radio to a receiver board that
drives a motor controller or a servo. The repository has three variants:

- **Sub-GHz (STM32F103 + CC1101).** The controller (src/controller/main.rs)
  converts a 12-bit ADC1 reading to a percentage. It drives its LED from the
  percentage and transmits a four-byte packet `[0x01, 0x02, pcnt, tag]`.
  The tag is the low byte of the little-endian CRC-16 of `pcnt`. The receiver
  (src/receiver/main.rs) accepts a packet only when the tag matches. It then
  writes a VESC "set duty cycle" command to USART1, drives its LED and
  flushes the radio's RX FIFO.
- **Display-only (src/main.rs).** It shows the same percentage on an OLED.
- **BLE (nRF52810 + rubble).** The controller (controller/src/main.rs)
  broadcasts the 14-bit SAADC reading, cut to one byte, in a beacon at about
  50 Hz from its TIMER1 interrupt. The receiver (receiver/src/main.rs) maps
  the first data byte of a beacon's last AD structure to a PWM0 pulse width. Its TIMER0 and RADIO
  interrupts step the link layer. On both boards the idle loop drains the
  log queue to the serial port.

Module layout, one per source file plus shared pieces:

| module | file | models |
|---|---|---|
| `Hal` | hal.dfy | u8/u16/u32, `as u8`, byteorder's LE/BE encodings, the CRC-16 as a parameter type, LED level, `Option` |
| `AdcDisplay` | adc_display.dfy | src/main.rs |
| `SubGhzPacket` | subghz_packet.dfy | the tag and the LED threshold both CC1101 binaries use |
| `SubGhzController` | subghz_controller.dfy | src/controller/main.rs |
| `SubGhzReceiver` | subghz_receiver.dfy | src/receiver/main.rs |
| `SubGhzLink` | subghz_link.dfy | controller and receiver together |
| `Ble` | ble.dfy | addresses, AD structures, beacons, link-layer commands (values only) |
| `BeaconController` | ble_controller.dfy | controller/src/main.rs |
| `BeaconReceiver` | ble_receiver.dfy | receiver/src/main.rs (callback, TIMER0, RADIO) |
| `BeaconLink` | ble_link.dfy | BLE controller and receiver together |
| `LogDrain` | log_drain.dfy | the `idle` loop of controller/src/main.rs:207-223 and receiver/src/main.rs:235-251 (identical) |

The CRC-16 comes from the `pruefung` crate, which is not part of this model.
Every operation that hashes takes it as a parameter `crc: Crc16`, a total
function from byte strings to 16-bit values. No polynomial is assumed, so
every lemma holds for any checksum function. Endless `loop`s become methods
over a finite sequence of inputs: ADC readings, or received buffers. Each
pass of the method is one pass of the source loop. State that the source
changes in place becomes a class: the receiver's serial line and LED, PWM0,
the link-layer call log, and the idle loop's consumer and serial port.

## Model

| member | source | states |
|---|---|---|
| `Hal.MulU32` | src/receiver/main.rs:109 | a u32 product that the caller has shown cannot overflow (a Rust debug build panics otherwise) divides back exactly by either non-zero factor; the same checked product is used at src/main.rs:98 |
| `Hal.TruncateU8` | src/controller/main.rs:134 | `as u8` keeps a value below 256 unchanged and otherwise differs from it by a multiple of 256 |
| `Hal.LeU16` | src/controller/main.rs:144-145 | `LittleEndian::write_u16` yields two bytes, low byte first, whose weighted sum is the value |
| `Hal.BeU16` | src/receiver/main.rs:121-122 | `BigEndian::write_u16` yields two bytes, high byte first, whose weighted sum is the value |
| `Hal.BeU32` | src/receiver/main.rs:108-109 | `BigEndian::write_u32` yields four bytes that read back as the same u32 |
| `Hal.BeU32OfRead` | src/receiver/main.rs:108-109 | reading four bytes big-endian and writing them again restores the bytes, so the encoding is a bijection |
| `AdcDisplay.Percent` | src/main.rs:96-98 | `(sensor_val*100)/4096` is the floor of `sensor_val*100/4096`; the u32 product cannot overflow for any 16-bit data value (checked multiplication); a 12-bit reading gives at most 99 |
| `AdcDisplay.PercentMonotone` | src/main.rs:98 | the percentage is non-decreasing in the reading |
| `AdcDisplay.DisplayLoop` | src/main.rs:92-107 | the i-th pass shows the percentage of the i-th reading |
| `SubGhzPacket.Tag` | src/controller/main.rs:142-147 | `hash[0]` after the little-endian write is the low byte of the CRC-16 of the single value byte |
| `SubGhzPacket.LedFor` | src/controller/main.rs:136-140 | the LED is driven low exactly when the value exceeds 50, otherwise high |
| `SubGhzController.SensorPercent` | src/controller/main.rs:133-134 | for a 12-bit reading the `as u8` cast loses nothing: the byte equals the display percentage and is at most 99 |
| `SubGhzController.SensorPercentMonotone` | src/controller/main.rs:134 | the transmitted percentage is non-decreasing in the 12-bit reading |
| `SubGhzController.Packet` | src/controller/main.rs:142-147 | the packet has exactly 4 bytes: header 0x01 0x02, the percentage, then the low byte of the CRC-16 of the percentage |
| `SubGhzController.ControllerLoop` | src/controller/main.rs:127-148 | pass i transmits the packet of reading i and sets the LED level of its percentage |
| `SubGhzReceiver.TagMatches` | src/receiver/main.rs:102-107 | the receiver accepts a buffer exactly when byte 3 is the low byte of the CRC-16 of byte 2 |
| `SubGhzReceiver.Duty` | src/receiver/main.rs:108-109 | the duty is the byte times 1000: divisible by 1000, at most 255000, no u32 overflow, top byte zero |
| `SubGhzReceiver.SetDutyPayload` | src/receiver/main.rs:111-117 | 5 bytes: command 0x05 then the big-endian duty, which reads back as the duty |
| `SubGhzReceiver.Frame` | src/receiver/main.rs:119-131 | the frame is start 0x02, payload length, payload, big-endian CRC-16 of exactly the payload, end 0x03 |
| `SubGhzReceiver.ParseFrame` | src/receiver/main.rs:124-131 | a parsed payload fits the one-byte length field |
| `SubGhzReceiver.FrameRoundTrip` | src/receiver/main.rs:119-131 | parsing a frame returns the payload it was built from |
| `SubGhzReceiver.ParseFrameExact` | src/receiver/main.rs:119-131 | any byte string the parser accepts is exactly the frame of the payload it returns |
| `SubGhzReceiver.SetDutyRoundTrip` | src/receiver/main.rs:108-117 | a payload parses to a duty if and only if it is that duty's set-duty payload |
| `SubGhzReceiver.DutyFrame` | src/receiver/main.rs:108-131 | an accepted value yields 10 bytes `0x02, 5, 0x05, d0..d3, crc_hi, crc_lo, 0x03` with d0 = 0 and the CRC over the 5 payload bytes; decoding them recovers value*1000 |
| `SubGhzReceiver.Response` | src/receiver/main.rs:102-131 | serial output exists if and only if byte 3 is the tag of byte 2, and it decodes to byte 2 times 1000 |
| `SubGhzReceiver.Receiver.constructor` | src/receiver/main.rs:54-74 | after bring-up nothing has been sent, the LED is high and the RX FIFO was flushed once |
| `SubGhzReceiver.Receiver.Write` | src/receiver/main.rs:124-131 | `block!(tx.write(b))` appends one byte to the serial line |
| `SubGhzReceiver.Receiver.OnPacket` | src/receiver/main.rs:102-142 | an accepted packet appends the duty frame byte by byte and sets the LED low exactly when the value exceeds 50; a rejected one sends nothing and leaves the LED; the RX FIFO is flushed either way |
| `SubGhzReceiver.Receiver.Poll` | src/receiver/main.rs:94-146 | when `rx_bytes_available` returns an error the pass changes nothing; otherwise the serial line grows by the packet's response, the LED follows the value exactly when the tag matches and stays as it was otherwise, and the FIFO is flushed |
| `SubGhzLink.PacketPassesTagCheck` | src/receiver/main.rs:102-107 | if the controller's bytes keep their positions in the receive buffer, the receiver's tag check passes, for any checksum function |
| `SubGhzLink.ReadingReachesVesc` | src/receiver/main.rs:102-137 | a 12-bit reading v reaches the VESC as the duty `percent(v)*1000`, and both boards' LEDs show the same level |
| `BeaconController.BeaconByte` | controller/src/main.rs:191-199 | for a 14-bit reading `(val/64) as u8` is `val/64` with no truncation |
| `BeaconController.BeaconByteMonotone` | controller/src/main.rs:199 | the beacon byte is non-decreasing in the reading |
| `BeaconController.BeaconByteSpans` | controller/src/main.rs:199 | every byte 0..255 is the beacon byte of the 14-bit reading b*64 |
| `BeaconController.BeaconFor` | controller/src/main.rs:189-202 | the beacon carries the link layer's address and exactly one `Unknown` AD structure of type 0xFF with exactly one data byte, the beacon byte |
| `BeaconController.BeaconCompare` | controller/src/main.rs:86-94 | `31_250/50` times 50 is TIMER1's tick rate at prescaler 2^9 (16 MHz/512) and fits the 16-bit timer mode |
| `BeaconController.BeaconApp.constructor` | controller/src/main.rs:92-97 | after start-up no COMPARE[0] event is pending and the handler has done nothing |
| `BeaconController.BeaconApp.Timer1` | controller/src/main.rs:184-205 | TIMER1 acknowledges COMPARE[0] first, then samples the SAADC, then broadcasts the beacon of the reading |
| `BeaconReceiver.PulseValue` | receiver/src/main.rs:265 | `6990 + 2*b` lies in [6990, 7500], fits u16, stays below countertop 8000, and gives back b |
| `BeaconReceiver.PulseValueStrictlyIncreasing` | receiver/src/main.rs:265 | the pulse is strictly increasing in the received byte |
| `BeaconReceiver.InitialPulseInRange` | receiver/src/main.rs:168-180 | the start-up pulse 7220 is also below countertop 8000 |
| `BeaconReceiver.CallbackAction` | receiver/src/main.rs:261-278 | PWM changes if and only if the last AD structure is `Unknown` with data; an empty `Unknown` last panics on `data[0]`; anything else does nothing |
| `BeaconReceiver.PwmCallback.constructor` | receiver/src/main.rs:180-194 | PWM0 starts with a one-entry sequence holding 7220, started and stepped once |
| `BeaconReceiver.PwmCallback.OnBeacon` | receiver/src/main.rs:257-279 | a pulse-setting beacon reloads sequence 0 with the pulse and triggers SEQSTART[0] and NEXTSTEP once each; any other beacon leaves PWM0 untouched; the compare value stays below countertop |
| `BeaconReceiver.Timer0Calls` | receiver/src/main.rs:218-233 | no call at all when the interrupt is not pending; otherwise exactly four calls, in this order: clear, update, `configure_receiver(cmd.radio)`, `configure_interrupt(cmd.next_update)` |
| `BeaconReceiver.LinkHandlers.constructor` | receiver/src/main.rs:139-151 | with `TEST_BEACON` off, `init` leaves no timer interrupt pending and has made exactly two calls: `start_advertise`, then `configure_interrupt` with the update it returned |
| `BeaconReceiver.LinkHandlers.Timer0` | receiver/src/main.rs:218-233 | TIMER0 appends exactly the calls of `Timer0Calls` for the flag it found and leaves the flag clear |
| `BeaconReceiver.LinkHandlers.Radio` | receiver/src/main.rs:208-216 | RADIO hands the current time to the radio and always reprograms the timer with the returned update |
| `BeaconLink.BeaconsAreWhitelisted` | receiver/src/main.rs:153-157 | the controller's beacons carry exactly the address the receiver whitelists |
| `BeaconLink.ReadingSetsPulse` | receiver/src/main.rs:261-265 | the AD structures of the controller's beacon for a 14-bit reading, handed to the callback unchanged, set the pulse `6990 + 2*(val/64)`, below countertop 8000 |
| `BeaconLink.PulseFollowsReading` | receiver/src/main.rs:265 | a higher reading never yields a shorter pulse |
| `LogDrain.Chunks` | receiver/src/main.rs:240 | `chunks(n)` splits a buffer into non-empty pieces of at most n bytes that concatenate back to the buffer |
| `LogDrain.ChunksFull` | receiver/src/main.rs:240 | every piece of `chunks(n)` except the last has exactly n bytes |
| `LogDrain.GrantLengths` | receiver/src/main.rs:244 | one release per grant, each with the grant's full length |
| `LogDrain.DrainWritesConcatenate` | receiver/src/main.rs:239-245 | the serial writes concatenate to exactly the grants' bytes, in order |
| `LogDrain.DrainWritesBounded` | receiver/src/main.rs:240-242 | every serial write is non-empty and at most 255 bytes |
| `LogDrain.IdleLoop.constructor` | receiver/src/main.rs:113 | the log consumer starts with the given grants; nothing written, released or processed |
| `LogDrain.IdleLoop.WriteChunks` | receiver/src/main.rs:240-242 | the writes for one grant are its 255-byte chunks, in order |
| `LogDrain.IdleLoop.DrainGrant` | receiver/src/main.rs:239-245 | one successful read writes the grant's chunks, then releases its whole length |
| `LogDrain.IdleLoop.DrainLog` | receiver/src/main.rs:239-245 | the drain runs until no grant is left; the writes are the chunks of every grant in order, and the releases are the grants' lengths |
| `LogDrain.IdleLoop.Iterate` | receiver/src/main.rs:238-250 | one idle pass drains the log, then calls `process_one` once if `has_work` said so and never otherwise; with no grant and no work it changes nothing |

## Left out

- The CRC-16 of `pruefung` is not part of this model. It is a parameter with no polynomial. `hasher.finish() as u16` is folded into that parameter. No claim is made that the frame's checksum is the one the VESC firmware expects.
- `bbqueue`, `rubble` (link layer, responder, beacon scanner, whitelist filter, `Beacon::new`) and the `logger`, `timer` and `radio` modules are not part of this model. Their outputs are parameters: the grants `read` will hand out, `has_work`, the command `update` returns, the update `recv_interrupt` returns.
- The deadline timer controller (deadline overflow, overwriting a pending deadline) lives in the `timer` module, which is not part of this model. `configure_interrupt` is therefore only recorded as a call.
- The log queue's producer side and the log records are not modelled. This covers `info!` in TIMER1 and in the callback, the timestamps and the `acquire_write`/commit protocol.
- `idle` drains with `while let`: each pass writes and releases every grant `read` hands out until `read` fails, not just one.
- Interrupt priorities, preemption and RTFM resource locking are not modelled. Each handler is one sequential step over its resources. A producer committing new log data while the idle loop drains is not modelled.
- Endless loops are modelled over a finite prefix of their inputs.
- Every `unwrap` on a driver call is left out. If the driver returns an error there, the firmware panics. This covers transmit, serial write, `process_one`, ADC read, `Beacon::new`, `start_advertise` and radio set-up, and on the CC1101 receiver the `set_radio_mode`, `read_fifo` and `write_strobe(SFRX)` calls of every pass (src/receiver/main.rs:94, 98-100, 142).
- Register-level bring-up and busy-wait polling are hardware I/O and are left out. This covers clocks, GPIO, SPI, USART1/UARTE0, the CC1101 configuration, ADC1/SAADC set-up, and the end-of-conversion and HFCLK polls. The strobe `set_radio_mode(Receive)` on every receiver pass is left out too.
- The CC1101 driver's placement of packet bytes in `radio_payload` is not part of this model. `SubGhzLink.PacketPassesTagCheck` assumes that bytes keep their positions. A short read can leave stale bytes from an earlier packet in the 12-byte buffer. The model takes whatever the buffer holds, so that case is covered.
- PWM0's sequence pointer is given the address of a stack local (receiver/src/main.rs:180-186, 265-270). The model takes the value written there as the compare value. It does not model the variable's lifetime.
- The comment at receiver/src/main.rs:168 claims a 20 ms period. That claim is not modelled.
- The display is left out: text rendering, the percentage, RSSI and hash strings, src/display.rs and its float arithmetic. common/src/lib.rs holds a data struct with no logic and is left out too.
- The BLE link lemmas (`BeaconLink.ReadingSetsPulse`, `BeaconLink.PulseFollowsReading`) assume the scanner hands the callback exactly the AD structures the controller broadcast. `Beacon::new` serialises them and rubble's scanner parses them again; both are foreign code outside this model, so that round trip is not proved.
- The RADIO handler of controller/src/main.rs:175-181 has the same shape as the receiver's. `BeaconReceiver.LinkHandlers.Radio` models both.
- `SubGhzReceiver.ParseFrame`: its own contract only bounds the payload length. What the parser accepts is stated by `SubGhzReceiver.FrameRoundTrip` and `SubGhzReceiver.ParseFrameExact`.
