/**
 * The PWM heater output: its packed 3-byte configuration and the software
 * PWM state machine. A period of `period` milliseconds is split into an on
 * phase of `onTime` and an off phase of `offTime`; each update call
 * compares the time since the last switch with the current phase's length.
 *
 * millis() is the parameter `now`, read once per call. digitalWrite is
 * recorded in `pinLog`, the levels written to the pin in order.
 */
module Pwm {
  import opened Wire
  import opened Float32

  const DefaultPin: byte := 0
  const DefaultPeriod: bv16 := 500
  const ConfigSize: nat := 3

  /** Packed as pin (u8) then period (u16, unaligned). */
  datatype PwmControlConfig = PwmControlConfig(pin: byte, period: bv16)

  function DefaultConfig(): PwmControlConfig {
    PwmControlConfig(DefaultPin, DefaultPeriod)
  }

  function Pack(c: PwmControlConfig): (r: seq<byte>)
    ensures |r| == ConfigSize
    ensures r[0] == c.pin && r[1..] == U16Bytes(c.period, WireOrder)
  {
    [c.pin] + U16Bytes(c.period, WireOrder)
  }

  /** The struct a byte copy of the first ConfigSize bytes of `data` yields. */
  function Unpack(data: seq<byte>): (c: PwmControlConfig)
    requires |data| >= ConfigSize
    ensures c.pin == data[0] && c.period == U16Of(data[1..3], WireOrder)
  {
    PwmControlConfig(data[0], U16Of(data[1..3], WireOrder))
  }

  lemma UnpackPack(c: PwmControlConfig, rest: seq<byte>)
    ensures Unpack(Pack(c) + rest) == c
  {
    assert (Pack(c) + rest)[1..3] == U16Bytes(c.period, WireOrder);
    U16Inverse(c.period, WireOrder);
  }

  lemma PackUnpack(data: seq<byte>)
    requires |data| >= ConfigSize
    ensures Pack(Unpack(data)) == data[..ConfigSize]
  {
    U16Bijective(data[1..3], WireOrder);
  }

  /** The packed default is pin 0 and period 500 = 0x01F4, low byte first. */
  lemma DefaultBytes()
    ensures Pack(DefaultConfig()) == [0, 0xF4, 0x01]
  {
  }

  /** A duty cycle the output can run: a non-NaN value in [0, 1]. */
  predicate Duty(v: f32) {
    Value(v).Finite? && 0.0 <= Value(v).r <= 1.0
  }

  /** `(uint16_t) (duty * period)` for a duty d in [0, 1]: the on phase, truncated toward zero.
      The rounding of the float product is not modelled. */
  function OnPhase(d: real, period: nat): (r: int)
    requires 0.0 <= d <= 1.0
    ensures 0 <= r <= period
  {
    ScaleWithin(d, period as real);
    FloorWithin(d * (period as real), period);
    (d * (period as real)).Floor
  }

  lemma FloorWithin(x: real, n: nat)
    requires 0.0 <= x <= n as real
    ensures 0 <= x.Floor <= n
  {
    assert x.Floor as real <= x < x.Floor as real + 1.0;
  }

  lemma ScaleWithin(d: real, p: real)
    requires 0.0 <= d <= 1.0 && 0.0 <= p
    ensures 0.0 <= d * p <= p
  {
  }

  function OnTime(duty: f32, period: bv16): (r: int)
    requires Duty(duty)
    ensures 0 <= r <= period as int
  {
    OnPhase(Value(duty).r, period as int)
  }

  /** `period - on_time` narrowed to uint16_t: never wraps, because the on phase fits in the
      period. */
  function OffTime(duty: f32, period: bv16): (r: int)
    requires Duty(duty)
    ensures r == period as int - OnTime(duty, period)
    ensures 0 <= r <= period as int
  {
    (period as int - OnTime(duty, period)) % 0x1_0000
  }

  lemma ZeroDuty(period: bv16)
    ensures Duty(Zero)
    ensures OnTime(Zero, period) == 0 && OffTime(Zero, period) == period as int
  {
    ConstantValues();
  }

  lemma FullDuty(period: bv16)
    ensures Duty(One)
    ensures OnTime(One, period) == period as int && OffTime(One, period) == 0
  {
    ConstantValues();
    assert OnPhase(1.0, period as int) == period as int;
  }

  /** The clamp in set_value always yields a duty cycle. */
  lemma ClampIsDuty(v: f32)
    ensures Duty(Clamp01(v))
  {
    Clamp01Range(v);
  }

  class PwmControl {
    const config: PwmControlConfig
    /** The duty cycle the timings were last computed for. */
    var currentValue: f32
    /** The requested duty cycle. */
    var value: f32
    var state: bool
    var stateChangeTime: bv32
    var onTime: int
    var offTime: int
    var pinLog: seq<bool>

    ghost predicate Valid()
      reads this
    {
      Duty(value) && Duty(currentValue) && 0 <= onTime < 0x1_0000 && 0 <= offTime < 0x1_0000
    }

    /** On and off phases computed for `value`, summing to the period. */
    ghost predicate Timed()
      reads this
    {
      Valid() && !NotEqual(currentValue, value)
      && onTime == OnTime(value, config.period) && offTime == OffTime(value, config.period)
      && onTime + offTime == config.period as int
    }

    /** The current phase has lasted at least its length at `now` (u32 elapsed time). */
    ghost predicate PhaseOver(now: bv32)
      reads this
    {
      if state then (now - stateChangeTime) as int >= onTime else (now - stateChangeTime) as int >= offTime
    }

    constructor (data: seq<byte>)
      requires |data| >= ConfigSize
      ensures config == Unpack(data)
      ensures currentValue == Zero && value == Zero && !state && stateChangeTime == 0
      ensures onTime == 0 && offTime == 0 && pinLog == []
      ensures Valid()
    {
      ConstantValues();
      config := Unpack(data);
      currentValue := Zero;
      value := Zero;
      state := false;
      stateChangeTime := 0;
      onTime := 0;
      offTime := 0;
      pinLog := [];
    }

    method GetValue() returns (r: f32)
      requires Valid()
      ensures r == value && Duty(r)
    {
      r := value;
    }

    method SetValue(v: f32)
      modifies this
      ensures value == Clamp01(v) && Duty(value)
      ensures currentValue == old(currentValue) && state == old(state)
      ensures stateChangeTime == old(stateChangeTime)
      ensures onTime == old(onTime) && offTime == old(offTime) && pinLog == old(pinLog)
    {
      ClampIsDuty(v);
      value := Clamp01(v);
    }

    /** Records `v` as the computed duty and derives both phases from the requested value. */
    method UpdateValue(v: f32)
      requires Valid() && Duty(v)
      modifies this
      ensures value == old(value) && state == old(state) && stateChangeTime == old(stateChangeTime)
      ensures currentValue == v
      ensures onTime == OnTime(value, config.period) && offTime == OffTime(value, config.period)
      ensures onTime + offTime == config.period as int && onTime <= config.period as int
      ensures pinLog == old(pinLog)
      ensures Valid()
    {
      currentValue := v;
      onTime := OnTime(value, config.period);
      offTime := (config.period as int - onTime) % 0x1_0000;
    }

    /** Switches the phase at `now`, recomputing the timings only when the requested duty
        differs from the one they were computed for. */
    method SetState(s: bool, now: bv32)
      requires Valid()
      modifies this
      ensures state == s && stateChangeTime == now
      ensures value == old(value) && pinLog == old(pinLog)
      ensures !NotEqual(currentValue, value)
      ensures NotEqual(old(currentValue), value) ==> Timed()
      ensures !NotEqual(old(currentValue), value) ==>
        currentValue == old(currentValue) && onTime == old(onTime) && offTime == old(offTime)
      ensures Valid()
      ensures old(Timed()) ==> Timed()
    {
      state := s;
      stateChangeTime := now;
      if NotEqual(currentValue, value) {
        UpdateValue(value);
      } else {
        SameValue(currentValue, value, config.period);
      }
    }

    method WritePin()
      modifies this
      ensures pinLog == old(pinLog) + [state]
      ensures value == old(value) && currentValue == old(currentValue) && state == old(state)
      ensures stateChangeTime == old(stateChangeTime) && onTime == old(onTime) && offTime == old(offTime)
    {
      pinLog := pinLog + [state];
    }

    /** Computes the phases for the requested duty and starts the current phase at `now`. */
    method Begin(now: bv32)
      requires Valid()
      modifies this
      ensures Timed()
      ensures state == old(state) && stateChangeTime == now && value == old(value)
      ensures pinLog == old(pinLog)
    {
      UpdateValue(value);
      SetState(state, now);
    }

    /** One tick of the PWM loop: ends the current phase once it has lasted its length (the
        elapsed time is an unsigned 32-bit difference, so it survives the millis() wrap), and
        writes the new level unless the new phase has zero length. At most one transition. */
    method Update(now: bv32)
      requires Valid()
      modifies this
      ensures Valid()
      ensures value == old(value)
      ensures old(state) && (now - old(stateChangeTime)) as int >= old(onTime) ==>
        !state && stateChangeTime == now
        && pinLog == old(pinLog) + (if offTime > 0 then [false] else [])
      ensures !old(state) && (now - old(stateChangeTime)) as int >= old(offTime) ==>
        state && stateChangeTime == now
        && pinLog == old(pinLog) + (if onTime > 0 then [true] else [])
      ensures (if old(state) then (now - old(stateChangeTime)) as int < old(onTime)
               else (now - old(stateChangeTime)) as int < old(offTime)) ==>
        state == old(state) && stateChangeTime == old(stateChangeTime) && currentValue == old(currentValue)
        && onTime == old(onTime) && offTime == old(offTime) && pinLog == old(pinLog)
      ensures old(PhaseOver(now)) && NotEqual(old(currentValue), value) ==> Timed()
      ensures old(PhaseOver(now)) && !NotEqual(old(currentValue), value) ==>
        currentValue == old(currentValue) && onTime == old(onTime) && offTime == old(offTime)
      ensures old(Timed()) ==> Timed()
    {
      var elapsed := (now - stateChangeTime) as int;
      if state && elapsed >= onTime {
        SetState(false, now);
        if offTime > 0 {
          WritePin();
        }
      } else if !state && elapsed >= offTime {
        SetState(true, now);
        if onTime > 0 {
          WritePin();
        }
      }
    }
  }

  /** Two duties that compare equal give the same on and off phases for any period, so
      skipping the recomputation for an equal value keeps the timings of the requested one. */
  lemma SameValue(a: f32, b: f32, period: bv16)
    requires Duty(a) && Duty(b) && !NotEqual(a, b)
    ensures OnTime(a, period) == OnTime(b, period) && OffTime(a, period) == OffTime(b, period)
  {
  }
}
