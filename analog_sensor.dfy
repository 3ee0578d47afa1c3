/**
 * The analog input sensor: its packed 2-byte configuration and the full-scale
 * value begin derives from the ADC resolution. The ADC read itself and the
 * float division in get_value are outside the model.
 */
module Analog {
  import opened Wire

  const DefaultPin: byte := 2
  const DefaultResolution: byte := 8
  const ConfigSize: nat := 2

  /** Packed as pin (u8), resolution (u8). */
  datatype AnalogSensorConfig = AnalogSensorConfig(pin: byte, resolution: byte)

  function DefaultConfig(): AnalogSensorConfig {
    AnalogSensorConfig(DefaultPin, DefaultResolution)
  }

  function Pack(c: AnalogSensorConfig): (r: seq<byte>)
    ensures |r| == ConfigSize
    ensures r[0] == c.pin && r[1] == c.resolution
  {
    [c.pin, c.resolution]
  }

  /** The struct a byte copy of the first ConfigSize bytes of `data` yields; later bytes play no part. */
  function Unpack(data: seq<byte>): (c: AnalogSensorConfig)
    requires |data| >= ConfigSize
    ensures c.pin == data[0] && c.resolution == data[1]
  {
    AnalogSensorConfig(data[0], data[1])
  }

  lemma UnpackPack(c: AnalogSensorConfig, rest: seq<byte>)
    ensures Unpack(Pack(c) + rest) == c
  {
  }

  lemma PackUnpack(data: seq<byte>)
    requires |data| >= ConfigSize
    ensures Pack(Unpack(data)) == data[..ConfigSize]
  {
  }

  function Pow2Nat(n: nat): (r: nat)
    ensures r >= 1
  {
    if n == 0 then 1 else 2 * Pow2Nat(n - 1)
  }

  lemma {:induction false} Pow2NatAdd(a: nat, b: nat)
    ensures Pow2Nat(a + b) == Pow2Nat(a) * Pow2Nat(b)
  {
    if b > 0 {
      Pow2NatAdd(a, b - 1);
    }
  }

  lemma {:induction false} Pow2NatMonotone(a: nat, b: nat)
    requires a <= b
    ensures Pow2Nat(a) <= Pow2Nat(b)
  {
    if a < b {
      Pow2NatMonotone(a, b - 1);
    }
  }

  /** `2 << (resolution - 1)` as C++ evaluates it for a resolution of 1 to 31: a shift of the int 2,
      kept to the 32 bits of an int, then narrowed to the uint16_t field. Resolution 0 shifts by
      a negative amount, which is undefined; from 32 on the exact result 2^resolution no longer
      fits in an int (and from 33 the shift count reaches the width of int), hence the bounds. */
  function MaxValue(resolution: nat): (r: int)
    requires 1 <= resolution <= 31
    ensures 0 <= r < 0x1_0000
  {
    2 * Pow2Nat(resolution - 1) % 0x1_0000_0000 % 0x1_0000
  }

  lemma MultipleMod(q: nat, p: nat)
    requires p == q * 0x1_0000
    ensures p % 0x1_0000 == 0
  {
    assert (q * 0x1_0000) % 0x1_0000 == 0;
  }

  lemma Below32(p: nat)
    requires p < 0x1_0000_0000
    ensures p % 0x1_0000_0000 == p
  {
  }

  lemma Below16(p: nat)
    requires p < 0x1_0000
    ensures p % 0x1_0000 == p
  {
  }

  lemma Pow2NatValues()
    ensures Pow2Nat(15) == 0x8000 && Pow2Nat(16) == 0x1_0000 && Pow2Nat(31) == 0x8000_0000
  {
    assert Pow2Nat(3) == 8;
    assert Pow2Nat(4) == 16;
    Pow2NatAdd(4, 3);
    Pow2NatAdd(4, 4);
    Pow2NatAdd(8, 7);
    Pow2NatAdd(8, 8);
    Pow2NatAdd(16, 15);
  }

  /** The scale is 2^resolution while that fits in 16 bits (resolution 1..15); from 16 on, the
      narrowing leaves 0. */
  lemma MaxValueIsPowerOfTwo(resolution: nat)
    requires 1 <= resolution <= 31
    ensures resolution <= 15 ==> MaxValue(resolution) == Pow2Nat(resolution)
    ensures resolution >= 16 ==> MaxValue(resolution) == 0
  {
    var n := resolution;
    var p := Pow2Nat(n);
    assert p == 2 * Pow2Nat(n - 1);
    Pow2NatValues();
    Pow2NatMonotone(n, 31);
    Below32(p);
    assert MaxValue(resolution) == p % 0x1_0000;
    if n <= 15 {
      Pow2NatMonotone(n, 15);
      Below16(p);
    } else {
      Pow2NatAdd(n - 16, 16);
      MultipleMod(Pow2Nat(n - 16), p);
    }
  }

  class AnalogSensor {
    const config: AnalogSensorConfig
    /** Full-scale ADC reading; 0 until begin. */
    var maxValue: int

    constructor (data: seq<byte>)
      requires |data| >= ConfigSize
      ensures config == Unpack(data)
      ensures maxValue == 0
    {
      config := Unpack(data);
      maxValue := 0;
    }

    method Begin()
      requires 1 <= config.resolution as int <= 31
      modifies this
      ensures maxValue == MaxValue(config.resolution as int)
    {
      maxValue := MaxValue(config.resolution as int);
    }

    /** An analog input can always be read. */
    method HasValue() returns (r: bool)
      ensures r
    {
      r := true;
    }
  }
}
