/** The nRF52810 actuator receiver (receiver/src/main.rs): the beacon scanner
    hands every whitelisted beacon to a callback that turns its last data byte
    into a PWM pulse width; TIMER0 and RADIO step the link layer. */
module BeaconReceiver {
  import opened Hal
  import opened Ble

  /** The only advertiser whose beacons the scanner passes to the callback. */
  const WHITELISTED_ADDRESS: DeviceAddress := DeviceAddress([169, 255, 235, 206, 50, 121], Random)

  /** PWM0 counts up to this top value in every period. */
  const PWM_COUNTERTOP: u16 := 8000
  /** Pulse width loaded at start-up, before any beacon arrives. */
  const INITIAL_PULSE: u16 := 7220
  /** Pulse width for beacon byte 0; each step of the byte adds two ticks. */
  const PULSE_BASE: u16 := 6990

  /** `6990 + u16::from(data[0]) * 2`. The pulse stays inside the PWM period,
      and the byte can be read back from it. */
  function PulseValue(b: u8): (v: u16)
    ensures PULSE_BASE <= v <= 7500 < PWM_COUNTERTOP
    ensures v % 2 == 0 && (v - PULSE_BASE) / 2 == b
  {
    PULSE_BASE + b * 2
  }

  /** Distinct bytes give distinct pulses, in the same order. */
  lemma PulseValueStrictlyIncreasing(a: u8, b: u8)
    requires a < b
    ensures PulseValue(a) < PulseValue(b)
  {
  }

  /** The start-up pulse also lies inside the PWM period. */
  lemma InitialPulseInRange()
    ensures PULSE_BASE <= INITIAL_PULSE < PWM_COUNTERTOP
  {
  }

  /** What the scan callback does for one beacon's AD structures: nothing,
      load a new pulse width, or panic on `data[0]` of an empty `Unknown`. */
  datatype PwmAction = NoChange | SetPulse(value: u16) | IndexPanic

  /** `match adv_data.last()`: only the last structure matters, and only an
      `Unknown` one changes the PWM. */
  function CallbackAction(ad: seq<AdStructure>): (a: PwmAction)
    ensures a.SetPulse? <==> (|ad| > 0 && ad[|ad| - 1].Unknown? && |ad[|ad| - 1].data| > 0)
    ensures a.IndexPanic? <==> (|ad| > 0 && ad[|ad| - 1].Unknown? && |ad[|ad| - 1].data| == 0)
    ensures a.SetPulse? ==> a.value == PulseValue(ad[|ad| - 1].data[0]) && a.value < PWM_COUNTERTOP
  {
    if |ad| == 0 then NoChange
    else match ad[|ad| - 1]
      case Unknown(_, data) => if |data| == 0 then IndexPanic else SetPulse(PulseValue(data[0]))
      case _ => NoChange
  }

  /** PWM0's sequence 0 as the callback programs it: the sequence length, the
      compare value the sequence pointer designates, and how often the
      SEQSTART[0] and NEXTSTEP tasks were triggered. */
  class PwmCallback {
    var seqCnt: nat
    var seqValue: u16
    var seqStarts: nat
    var nextSteps: nat

    /** PWM0 as left by start-up: one-entry sequence holding the initial
        pulse, started and stepped once. */
    constructor ()
      ensures seqCnt == 1 && seqValue == INITIAL_PULSE && seqStarts == 1 && nextSteps == 1
      ensures seqValue < PWM_COUNTERTOP
    {
      seqCnt, seqValue, seqStarts, nextSteps := 1, INITIAL_PULSE, 1, 1;
    }

    /** The scan callback. A beacon whose last structure is an `Unknown`
        with data reloads sequence 0 with the new pulse and restarts it;
        every other beacon leaves PWM0 untouched. The source indexes
        `data[0]` unchecked, so an empty `Unknown` last is excluded. */
    method OnBeacon(ad: seq<AdStructure>)
      requires !CallbackAction(ad).IndexPanic?
      modifies this
      ensures CallbackAction(ad).NoChange? ==>
        seqCnt == old(seqCnt) && seqValue == old(seqValue) && seqStarts == old(seqStarts) && nextSteps == old(nextSteps)
      ensures CallbackAction(ad).SetPulse? ==>
        seqCnt == 1 && seqValue == CallbackAction(ad).value &&
        seqStarts == old(seqStarts) + 1 && nextSteps == old(nextSteps) + 1
      ensures old(seqValue) < PWM_COUNTERTOP ==> seqValue < PWM_COUNTERTOP
    {
      if |ad| > 0 {
        match ad[|ad| - 1]
        case Unknown(_, data) =>
          var val := PulseValue(data[0]);
          seqCnt := 1;
          seqValue := val;
          seqStarts := seqStarts + 1;
          nextSteps := nextSteps + 1;
        case _ =>
      }
    }
  }

  /** Calls the interrupt handlers make on the BLE timer, the link layer and
      the radio. */
  datatype LinkCall =
    | ClearInterrupt
    | Update
    | ConfigureReceiver(radio: RadioCmd)
    | ConfigureInterrupt(next: NextUpdate)
    | RecvInterrupt(now: nat)
    | StartAdvertise

  /** The calls one TIMER0 firing makes when the timer's interrupt flag reads
      `pending` and the link layer's update answers `cmd`. */
  function Timer0Calls(pending: bool, cmd: Cmd): (calls: seq<LinkCall>)
    ensures calls == [] <==> !pending
    ensures pending ==> |calls| == 4 && calls[0] == ClearInterrupt && calls[1] == Update
    ensures pending ==> calls[|calls| - 1] == ConfigureInterrupt(cmd.nextUpdate)
    ensures pending ==> calls[2] == ConfigureReceiver(cmd.radio)
  {
    if pending then [ClearInterrupt, Update, ConfigureReceiver(cmd.radio), ConfigureInterrupt(cmd.nextUpdate)] else []
  }

  /** The resources TIMER0 and RADIO share: the BLE timer's interrupt flag and
      the sequence of calls made on the timer, the link layer and the radio. */
  class LinkHandlers {
    var interruptPending: bool
    var calls: seq<LinkCall>

    /** `init` with `TEST_BEACON` off: a fresh BLE timer, then
        `start_advertise` and `configure_interrupt` with the update it
        returned (`first`). */
    constructor (first: NextUpdate)
      ensures !interruptPending
      ensures calls == [StartAdvertise, ConfigureInterrupt(first)]
    {
      interruptPending := false;
      calls := [StartAdvertise];
      calls := calls + [ConfigureInterrupt(first)];
    }

    /** The TIMER0 handler; `cmd` is what `update` returns. A firing whose
        flag is not pending is spurious and returns at once; otherwise the
        flag is cleared before the link layer is stepped. */
    method Timer0(cmd: Cmd)
      modifies this
      ensures calls == old(calls) + Timer0Calls(old(interruptPending), cmd)
      ensures !interruptPending
    {
      if !interruptPending {
        return;
      }
      interruptPending := false;
      calls := calls + [ClearInterrupt];
      calls := calls + [Update];
      calls := calls + [ConfigureReceiver(cmd.radio)];
      calls := calls + [ConfigureInterrupt(cmd.nextUpdate)];
    }

    /** The RADIO handler; `now` is the BLE timer's reading and `next` what
        `recv_interrupt` returns. The timer is always reprogrammed with it. */
    method Radio(now: nat, next: NextUpdate)
      modifies this`calls
      ensures calls == old(calls) + [RecvInterrupt(now), ConfigureInterrupt(next)]
    {
      calls := calls + [RecvInterrupt(now)];
      calls := calls + [ConfigureInterrupt(next)];
    }
  }
}
