/**
 * The DS18x20 temperature sensor: its packed 3-byte configuration and the
 * read-once latch behind has_value/get_value. The 1-Wire conversion itself
 * (the GyverDS18Single library) is outside the model; a finished conversion
 * arrives through Deliver.
 */
module Dsx18 {
  import opened Wire
  import opened Float32

  /** The board pin the sensor is wired to by default. */
  const DefaultPin: byte := 2
  const DefaultResolution: byte := 10
  const ConfigSize: nat := 3

  /** Packed as pin (u8), resolution (u8), parasite (bool). */
  datatype Dsx18SensorConfig = Dsx18SensorConfig(pin: byte, resolution: byte, parasite: bool)

  function DefaultConfig(): Dsx18SensorConfig {
    Dsx18SensorConfig(DefaultPin, DefaultResolution, false)
  }

  function Pack(c: Dsx18SensorConfig): (r: seq<byte>)
    ensures |r| == ConfigSize
    ensures r[0] == c.pin && r[1] == c.resolution && r[2] == BoolByte(c.parasite)
  {
    [c.pin, c.resolution, BoolByte(c.parasite)]
  }

  /** The struct a byte copy of the first ConfigSize bytes of `data` yields. */
  function Unpack(data: seq<byte>): (c: Dsx18SensorConfig)
    requires |data| >= ConfigSize
    ensures c.pin == data[0] && c.resolution == data[1] && (c.parasite <==> data[2] != 0)
  {
    Dsx18SensorConfig(data[0], data[1], data[2] != 0)
  }

  lemma UnpackPack(c: Dsx18SensorConfig, rest: seq<byte>)
    ensures Unpack(Pack(c) + rest) == c
  {
  }

  /** The packed default is pin 2, resolution 10, not parasite-powered. */
  lemma DefaultBytes()
    ensures Pack(DefaultConfig()) == [2, 10, 0]
  {
  }

  class DSx18Sensor {
    const config: Dsx18SensorConfig
    /** Set by each finished conversion, cleared by every get_value. */
    var hasValue: bool
    var lastValue: f32

    constructor (data: seq<byte>)
      requires |data| >= ConfigSize
      ensures config == Unpack(data)
      ensures !hasValue && lastValue == Zero
    {
      config := Unpack(data);
      hasValue := false;
      lastValue := Zero;
    }

    /** Reports the latch; changes nothing. */
    method HasValue() returns (r: bool)
      ensures r == hasValue
    {
      r := hasValue;
    }

    /** Returns the last reading and clears the latch, so the next has_value is false until
        another conversion is delivered. */
    method GetValue() returns (r: f32)
      modifies this
      ensures r == old(lastValue)
      ensures !hasValue && lastValue == old(lastValue)
    {
      hasValue := false;
      r := lastValue;
    }

    /** The outcome of a conversion read: the latch takes whether the read succeeded, and only a
        successful read replaces the last value. */
    method Deliver(ok: bool, temperature: f32)
      modifies this
      ensures hasValue == ok
      ensures lastValue == if ok then temperature else old(lastValue)
    {
      hasValue := ok;
      if ok {
        lastValue := temperature;
      }
    }
  }
}
