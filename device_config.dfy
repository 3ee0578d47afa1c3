/**
 * The device's persisted configuration: the packed structs of the firmware's
 * config header, their byte layout (every struct is packed, so a field
 * starts where the previous one ends), and the default values their
 * initialisers give.
 *
 * The sensor and control sub-records are tagged unions: a type byte and a
 * 1024-byte block whose leading bytes hold the selected variant's packed
 * config. Wi-Fi mode is one byte wide. Defaults that come from the
 * credentials header (Wi-Fi and MQTT credentials) and from the networking
 * library (the default Wi-Fi mode) are parameters.
 */
module DeviceConfig {
  import opened Wire
  import opened Float32
  import Dsx18
  import Analog
  import Pwm

  const ConfigStringSize: nat := 32
  const DataBlockSize: nat := 1024

  /** A `char[CONFIG_STRING_SIZE]` field. */
  type ConfigString = s: seq<byte> | |s| == ConfigStringSize witness Zeros(ConfigStringSize)
  /** A variant payload block. */
  type DataBlock = s: seq<byte> | |s| == DataBlockSize witness Zeros(DataBlockSize)

  // Codes of the SensorType and ControlType enums.
  const SensorTypeAnalogValue: byte := 0
  const SensorTypeDsx18x: byte := 1
  const ControlTypePwmValue: byte := 0

  datatype SysConfig = SysConfig(
    mdnsName: ConfigString,
    wifiMode: byte,
    wifiSsid: ConfigString,
    wifiPassword: ConfigString,
    wifiConnectionCheckInterval: bv32,
    wifiMaxConnectionAttemptInterval: bv32,
    timeZone: f32,
    mqtt: bool,
    mqttHost: ConfigString,
    mqttPort: bv16,
    mqttUser: ConfigString,
    mqttPassword: ConfigString)

  datatype NightModeConfig = NightModeConfig(enabled: bool, startTime: bv32, endTime: bv32)

  datatype SensorConfig = SensorConfig(sensorType: byte, data: DataBlock)

  datatype ControlConfig = ControlConfig(controlType: byte, data: DataBlock)

  datatype PidConfig = PidConfig(target: f32, p: f32, i: f32, d: f32, interval: bv16, reverse: bool)

  datatype RegulatorConfig = RegulatorConfig(sensor: SensorConfig, control: ControlConfig, pid: PidConfig)

  datatype Config = Config(power: bool, regulator: RegulatorConfig, nightMode: NightModeConfig, sysConfig: SysConfig)

  /** The live readings the `state` data request serialises. */
  datatype RuntimeInfo = RuntimeInfo(sensorValue: f32, controlValue: f32)

  // ---------------------------------------------------------------------
  // Packed layouts.

  const SysConfigSize: nat := 208
  const NightModeConfigSize: nat := 9
  const SensorConfigSize: nat := 1025
  const ControlConfigSize: nat := 1025
  const PidConfigSize: nat := 19
  const RegulatorConfigSize: nat := 2069
  const ConfigSize: nat := 2287
  const RuntimeInfoSize: nat := 8

  function PackSysConfig(s: SysConfig): (r: seq<byte>)
    ensures |r| == SysConfigSize
  {
    s.mdnsName + [s.wifiMode] + s.wifiSsid + s.wifiPassword
    + U32Bytes(s.wifiConnectionCheckInterval, WireOrder)
    + U32Bytes(s.wifiMaxConnectionAttemptInterval, WireOrder)
    + U32Bytes(s.timeZone, WireOrder)
    + [BoolByte(s.mqtt)] + s.mqttHost + U16Bytes(s.mqttPort, WireOrder)
    + s.mqttUser + s.mqttPassword
  }

  function PackNightModeConfig(n: NightModeConfig): (r: seq<byte>)
    ensures |r| == NightModeConfigSize
  {
    [BoolByte(n.enabled)] + U32Bytes(n.startTime, WireOrder) + U32Bytes(n.endTime, WireOrder)
  }

  function PackSensorConfig(s: SensorConfig): (r: seq<byte>)
    ensures |r| == SensorConfigSize
  {
    [s.sensorType] + s.data
  }

  function PackControlConfig(c: ControlConfig): (r: seq<byte>)
    ensures |r| == ControlConfigSize
  {
    [c.controlType] + c.data
  }

  function PackPidConfig(p: PidConfig): (r: seq<byte>)
    ensures |r| == PidConfigSize
  {
    U32Bytes(p.target, WireOrder) + U32Bytes(p.p, WireOrder) + U32Bytes(p.i, WireOrder)
    + U32Bytes(p.d, WireOrder) + U16Bytes(p.interval, WireOrder) + [BoolByte(p.reverse)]
  }

  function PackRegulatorConfig(g: RegulatorConfig): (r: seq<byte>)
    ensures |r| == RegulatorConfigSize
  {
    PackSensorConfig(g.sensor) + PackControlConfig(g.control) + PackPidConfig(g.pid)
  }

  function PackConfig(c: Config): (r: seq<byte>)
    ensures |r| == ConfigSize
  {
    [BoolByte(c.power)] + PackRegulatorConfig(c.regulator)
    + PackNightModeConfig(c.nightMode) + PackSysConfig(c.sysConfig)
  }

  function PackRuntimeInfo(r: RuntimeInfo): (b: seq<byte>)
    ensures |b| == RuntimeInfoSize
  {
    U32Bytes(r.sensorValue, WireOrder) + U32Bytes(r.controlValue, WireOrder)
  }

  /** Where each part of a packed Config lies: power at 0, the sensor record (type byte, then its
      1024-byte block) at 1, the control record at 1026, pid at 2051, night mode at 2070 and the
      system settings at 2079, ending at 2287. */
  lemma ConfigLayout(c: Config)
    ensures var b := PackConfig(c);
      b[0] == BoolByte(c.power)
      && b[1] == c.regulator.sensor.sensorType && b[2..1026] == c.regulator.sensor.data
      && b[1026] == c.regulator.control.controlType && b[1027..2051] == c.regulator.control.data
      && b[2051..2070] == PackPidConfig(c.regulator.pid)
      && b[2070..2079] == PackNightModeConfig(c.nightMode)
      && b[2079..] == PackSysConfig(c.sysConfig)
  {
    var b := PackConfig(c);
    var g := PackRegulatorConfig(c.regulator);
    assert b == [BoolByte(c.power)] + g + PackNightModeConfig(c.nightMode) + PackSysConfig(c.sysConfig);
    assert b[1..2070] == g;
    assert g[..1025] == PackSensorConfig(c.regulator.sensor);
    assert g[1025..2050] == PackControlConfig(c.regulator.control);
    assert g[2050..] == PackPidConfig(c.regulator.pid);
    assert b[2..1026] == g[1..1025];
    assert b[1027..2051] == g[1026..2050];
  }

  // ---------------------------------------------------------------------
  // Defaults.

  /** A string literal initialiser of a `char[32]` field: the characters, then NUL padding. The
      literal and its terminator must fit in the field. */
  function StringField(s: seq<byte>): (r: ConfigString)
    requires |s| < ConfigStringSize
    ensures r[..|s|] == s
    ensures forall k :: |s| <= k < ConfigStringSize ==> r[k] == 0
  {
    s + Zeros(ConfigStringSize - |s|)
  }

  /** The ASCII bytes of "esp_pid", the default mDNS name. */
  const DefaultMdnsName: seq<byte> := [0x65, 0x73, 0x70, 0x5F, 0x70, 0x69, 0x64]

  /** Default values that come from headers outside this model. */
  datatype BuildDefaults = BuildDefaults(
    wifiMode: byte,
    wifiSsid: seq<byte>,
    wifiPassword: seq<byte>,
    mqttHost: seq<byte>,
    mqttPort: bv16,
    mqttUser: seq<byte>,
    mqttPassword: seq<byte>)

  predicate FitsFields(b: BuildDefaults) {
    |b.wifiSsid| < ConfigStringSize && |b.wifiPassword| < ConfigStringSize
    && |b.mqttHost| < ConfigStringSize && |b.mqttUser| < ConfigStringSize
    && |b.mqttPassword| < ConfigStringSize
  }

  function DefaultSysConfig(b: BuildDefaults): SysConfig
    requires FitsFields(b)
  {
    SysConfig(
      StringField(DefaultMdnsName), b.wifiMode, StringField(b.wifiSsid), StringField(b.wifiPassword),
      5000, 120000, Five, false,
      StringField(b.mqttHost), b.mqttPort, StringField(b.mqttUser), StringField(b.mqttPassword))
  }

  function DefaultNightModeConfig(): NightModeConfig {
    NightModeConfig(false, 0, 10 * 60 * 60)
  }

  function DefaultPidConfig(): PidConfig {
    PidConfig(Thirty, One, PointZeroFive, Zero, 1000, false)
  }

  /** The DS18 variant's packed defaults, then zeros. */
  function DefaultSensorConfig(): SensorConfig {
    SensorConfig(SensorTypeDsx18x, Dsx18.Pack(Dsx18.DefaultConfig()) + Zeros(DataBlockSize - Dsx18.ConfigSize))
  }

  /** The PWM variant's packed defaults, then zeros. */
  function DefaultControlConfig(): ControlConfig {
    ControlConfig(ControlTypePwmValue, Pwm.Pack(Pwm.DefaultConfig()) + Zeros(DataBlockSize - Pwm.ConfigSize))
  }

  function DefaultConfig(b: BuildDefaults): Config
    requires FitsFields(b)
  {
    Config(true, RegulatorConfig(DefaultSensorConfig(), DefaultControlConfig(), DefaultPidConfig()),
      DefaultNightModeConfig(), DefaultSysConfig(b))
  }

  /** The default sensor record selects the DS18 variant, whose config (pin 2, resolution 10, no
      parasite power) fills the first three bytes; the other 1021 are zero. */
  lemma DefaultSensorLayout()
    ensures DefaultSensorConfig().sensorType == SensorTypeDsx18x
    ensures DefaultSensorConfig().data[..3] == [2, 10, 0]
    ensures forall k :: 3 <= k < DataBlockSize ==> DefaultSensorConfig().data[k] == 0
    ensures Dsx18.Unpack(DefaultSensorConfig().data) == Dsx18.DefaultConfig()
  {
    Dsx18.DefaultBytes();
    Dsx18.UnpackPack(Dsx18.DefaultConfig(), Zeros(DataBlockSize - Dsx18.ConfigSize));
  }

  /** The default control record selects PWM, with pin 0 and period 500 in bytes 0..2. */
  lemma DefaultControlLayout()
    ensures DefaultControlConfig().controlType == ControlTypePwmValue
    ensures DefaultControlConfig().data[..3] == [0, 0xF4, 0x01]
    ensures forall k :: 3 <= k < DataBlockSize ==> DefaultControlConfig().data[k] == 0
    ensures Pwm.Unpack(DefaultControlConfig().data) == Pwm.DefaultConfig()
  {
    Pwm.DefaultBytes();
    Pwm.UnpackPack(Pwm.DefaultConfig(), Zeros(DataBlockSize - Pwm.ConfigSize));
  }

  /** Night mode is off by default and spans 0 to 36000 seconds; the regulator runs every 1000 ms
      toward 30 degrees, in forward mode, with gains 1, 0.05f (the binary32 nearest 0.05) and 0. */
  lemma DefaultValues(b: BuildDefaults)
    requires FitsFields(b)
    ensures DefaultConfig(b).power
    ensures DefaultNightModeConfig() == NightModeConfig(false, 0, 36000)
    ensures Value(DefaultPidConfig().target) == Finite(30.0)
    ensures Value(DefaultPidConfig().p) == Finite(1.0) && Value(DefaultPidConfig().d) == Finite(0.0)
    ensures Value(DefaultPidConfig().i) == Finite(13421773.0 / 268435456.0)
    ensures DefaultPidConfig().interval == 1000 && !DefaultPidConfig().reverse
    ensures CString(DefaultSysConfig(b).mdnsName) == DefaultMdnsName
    ensures !DefaultSysConfig(b).mqtt && Value(DefaultSysConfig(b).timeZone) == Finite(5.0)
  {
    ConstantValues();
    PointZeroFiveValue();
    CStringOfPadded(DefaultMdnsName, ConfigStringSize - |DefaultMdnsName|);
  }

  /** `std::memcpy(dst, src, |src|)`. */
  method CopyInto(dst: array<byte>, src: seq<byte>)
    requires |src| <= dst.Length
    modifies dst
    ensures dst[..] == src + old(dst[..])[|src|..]
  {
    var k := 0;
    while k < |src|
      invariant 0 <= k <= |src|
      invariant forall j :: 0 <= j < k ==> dst[j] == src[j]
      invariant forall j :: k <= j < dst.Length ==> dst[j] == old(dst[j])
    {
      dst[k] := src[k];
      k := k + 1;
    }
    assert dst[..] == src + old(dst[..])[|src|..];
  }

  /** The SensorConfig constructor: a zeroed block, then the DS18 defaults copied into it. */
  method NewSensorConfig() returns (c: SensorConfig)
    ensures c == DefaultSensorConfig()
  {
    var data := new byte[DataBlockSize](_ => 0);
    CopyInto(data, Dsx18.Pack(Dsx18.DefaultConfig()));
    assert data[..] == Dsx18.Pack(Dsx18.DefaultConfig()) + Zeros(DataBlockSize - Dsx18.ConfigSize);
    c := SensorConfig(SensorTypeDsx18x, data[..]);
  }

  /** The ControlConfig constructor: a zeroed block, then the PWM defaults copied into it. */
  method NewControlConfig() returns (c: ControlConfig)
    ensures c == DefaultControlConfig()
  {
    var data := new byte[DataBlockSize](_ => 0);
    CopyInto(data, Pwm.Pack(Pwm.DefaultConfig()));
    assert data[..] == Pwm.Pack(Pwm.DefaultConfig()) + Zeros(DataBlockSize - Pwm.ConfigSize);
    c := ControlConfig(ControlTypePwmValue, data[..]);
  }

  // ---------------------------------------------------------------------
  // The C types of the fields, for checking the property tables against them.

  datatype CType = CBool | CUint8 | CUint16 | CUint32 | CFloat | CEnum8 | CChars(n: nat) | CRecord(size: nat)

  datatype ConfigField =
    | Power
    | SensorType | ControlType
    | PidTarget | PidP | PidI | PidD | PidInterval | PidReverse
    | NightModeEnabled | NightModeStartTime | NightModeEndTime
    | MdnsName | WifiMode | WifiSsid | WifiPassword
    | WifiConnectionCheckInterval | WifiMaxConnectionAttemptInterval
    | TimeZone | Mqtt | MqttHost | MqttPort | MqttUser | MqttPassword

  /** The declared type of each scalar field of Config. */
  function FieldType(f: ConfigField): CType {
    match f
    case Power => CBool
    case SensorType => CEnum8
    case ControlType => CEnum8
    case PidTarget => CFloat
    case PidP => CFloat
    case PidI => CFloat
    case PidD => CFloat
    case PidInterval => CUint16
    case PidReverse => CBool
    case NightModeEnabled => CBool
    case NightModeStartTime => CUint32
    case NightModeEndTime => CUint32
    case MdnsName => CChars(ConfigStringSize)
    case WifiMode => CEnum8
    case WifiSsid => CChars(ConfigStringSize)
    case WifiPassword => CChars(ConfigStringSize)
    case WifiConnectionCheckInterval => CUint32
    case WifiMaxConnectionAttemptInterval => CUint32
    case TimeZone => CFloat
    case Mqtt => CBool
    case MqttHost => CChars(ConfigStringSize)
    case MqttPort => CUint16
    case MqttUser => CChars(ConfigStringSize)
    case MqttPassword => CChars(ConfigStringSize)
  }
}
