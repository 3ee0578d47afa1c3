/**
 * The wire contract between the two ends, stated across both models.
 *
 * The device stores its configuration as packed structs; the console reads
 * the same bytes back field by field. The device keeps its recent samples
 * in a ring; the console rotates and filters what it receives. The
 * console's property table names packet types and wire kinds; the device's
 * metadata tables bind the same packet types to typed parameters. Each
 * pair is proved to fit here.
 */
module Contract {
  import opened Wrappers
  import opened Wire
  import opened Float32
  import DC = DeviceConfig
  import CC = ConsoleConfig
  import History
  import App
  import P = Protocol
  import M = Metadata
  import Props
  import Dsx18
  import Analog
  import Pwm

  // ---------------------------------------------------------------------
  // The configuration round trip.

  /** The record the console builds from the bytes of a device sensor record. */
  function SensorView(s: DC.SensorConfig): CC.SensorRecord {
    CC.SensorRecord(s.sensorType, s.data, CC.ParseSensorBlock(s.sensorType, s.data))
  }

  function ControlView(c: DC.ControlConfig): CC.ControlRecord {
    CC.ControlRecord(c.controlType, c.data, CC.ParseControlBlock(c.controlType, c.data))
  }

  function PidView(p: DC.PidConfig): CC.PidRecord {
    CC.PidRecord(p.target, p.p, p.i, p.d, p.interval, p.reverse)
  }

  function NightModeView(n: DC.NightModeConfig): CC.NightModeRecord {
    CC.NightModeRecord(n.enabled, n.startTime, n.endTime)
  }

  /** Strings come back up to their first NUL; every other field comes back as stored. */
  function SysConfigView(s: DC.SysConfig): CC.SysConfigRecord {
    CC.SysConfigRecord(CString(s.mdnsName), s.wifiMode, CString(s.wifiSsid), CString(s.wifiPassword),
      s.wifiConnectionCheckInterval, s.wifiMaxConnectionAttemptInterval, s.timeZone, s.mqtt,
      CString(s.mqttHost), s.mqttPort, CString(s.mqttUser), CString(s.mqttPassword))
  }

  function ConfigView(c: DC.Config): CC.ConfigRecord {
    CC.ConfigRecord(c.power, SensorView(c.regulator.sensor), ControlView(c.regulator.control),
      PidView(c.regulator.pid), NightModeView(c.nightMode), SysConfigView(c.sysConfig))
  }

  lemma DecodeSensorPacked(buf: seq<byte>, pos: nat, s: DC.SensorConfig)
    requires At(buf, pos, DC.PackSensorConfig(s))
    ensures CC.DecodeSensor(buf, pos) == Some((SensorView(s), pos + DC.SensorConfigSize))
  {
    AtSplit(buf, pos, [s.sensorType], s.data);
    ReadU8At(buf, pos, s.sensorType);
    ReadBinaryAt(buf, pos + 1, s.data);
  }

  lemma DecodeControlPacked(buf: seq<byte>, pos: nat, c: DC.ControlConfig)
    requires At(buf, pos, DC.PackControlConfig(c))
    ensures CC.DecodeControl(buf, pos) == Some((ControlView(c), pos + DC.ControlConfigSize))
  {
    AtSplit(buf, pos, [c.controlType], c.data);
    ReadU8At(buf, pos, c.controlType);
    ReadBinaryAt(buf, pos + 1, c.data);
  }

  /** The four gains and target of the PID block: 16 bytes. */
  lemma GainsRead(buf: seq<byte>, pos: nat, p: DC.PidConfig)
    requires At(buf, pos, U32Bytes(p.target, WireOrder) + U32Bytes(p.p, WireOrder)
      + U32Bytes(p.i, WireOrder) + U32Bytes(p.d, WireOrder))
    ensures ReadF32(buf, pos, WireOrder) == Some((p.target, pos + 4))
    ensures ReadF32(buf, pos + 4, WireOrder) == Some((p.p, pos + 8))
    ensures ReadF32(buf, pos + 8, WireOrder) == Some((p.i, pos + 12))
    ensures ReadF32(buf, pos + 12, WireOrder) == Some((p.d, pos + 16))
  {
    var a, b, c, d := U32Bytes(p.target, WireOrder), U32Bytes(p.p, WireOrder), U32Bytes(p.i, WireOrder), U32Bytes(p.d, WireOrder);
    AtSplit(buf, pos, a + b + c, d);
    AtSplit(buf, pos, a + b, c);
    AtSplit(buf, pos, a, b);
    ReadU32At(buf, pos, p.target, WireOrder);
    ReadU32At(buf, pos + 4, p.p, WireOrder);
    ReadU32At(buf, pos + 8, p.i, WireOrder);
    ReadU32At(buf, pos + 12, p.d, WireOrder);
  }

  lemma DecodePidPacked(buf: seq<byte>, pos: nat, p: DC.PidConfig)
    requires At(buf, pos, DC.PackPidConfig(p))
    ensures CC.DecodePid(buf, pos) == Some((PidView(p), pos + DC.PidConfigSize))
  {
    var g := U32Bytes(p.target, WireOrder) + U32Bytes(p.p, WireOrder) + U32Bytes(p.i, WireOrder) + U32Bytes(p.d, WireOrder);
    var e, f := U16Bytes(p.interval, WireOrder), [BoolByte(p.reverse)];
    assert DC.PackPidConfig(p) == g + e + f;
    AtSplit(buf, pos, g + e, f);
    AtSplit(buf, pos, g, e);
    GainsRead(buf, pos, p);
    ReadU16At(buf, pos + 16, p.interval, WireOrder);
    ReadBoolAt(buf, pos + 18, p.reverse);
  }

  lemma DecodeNightModePacked(buf: seq<byte>, pos: nat, n: DC.NightModeConfig)
    requires At(buf, pos, DC.PackNightModeConfig(n))
    ensures CC.DecodeNightMode(buf, pos) == Some((NightModeView(n), pos + DC.NightModeConfigSize))
  {
    var a, b, c := [BoolByte(n.enabled)], U32Bytes(n.startTime, WireOrder), U32Bytes(n.endTime, WireOrder);
    AtSplit(buf, pos, a + b, c);
    AtSplit(buf, pos, a, b);
    ReadBoolAt(buf, pos, n.enabled);
    ReadU32At(buf, pos + 1, n.startTime, WireOrder);
    ReadU32At(buf, pos + 5, n.endTime, WireOrder);
  }

  /** The name, mode and Wi-Fi credentials: the first 97 bytes of the system settings. */
  function WifiBytes(s: DC.SysConfig): seq<byte> {
    s.mdnsName + [s.wifiMode] + s.wifiSsid + s.wifiPassword
  }

  /** The intervals, time zone and MQTT settings: the other 111 bytes. */
  function NetworkBytes(s: DC.SysConfig): seq<byte> {
    U32Bytes(s.wifiConnectionCheckInterval, WireOrder)
    + U32Bytes(s.wifiMaxConnectionAttemptInterval, WireOrder)
    + U32Bytes(s.timeZone, WireOrder)
    + [BoolByte(s.mqtt)] + s.mqttHost + U16Bytes(s.mqttPort, WireOrder)
    + s.mqttUser + s.mqttPassword
  }

  lemma SysConfigHalves(s: DC.SysConfig)
    ensures DC.PackSysConfig(s) == WifiBytes(s) + NetworkBytes(s)
  {
  }

  lemma DecodeWifiPacked(buf: seq<byte>, pos: nat, s: DC.SysConfig)
    requires At(buf, pos, WifiBytes(s))
    ensures CC.DecodeWifi(buf, pos) ==
      Some(((CString(s.mdnsName), s.wifiMode, CString(s.wifiSsid), CString(s.wifiPassword)), pos + 97))
  {
    AtSplit(buf, pos, s.mdnsName + [s.wifiMode] + s.wifiSsid, s.wifiPassword);
    AtSplit(buf, pos, s.mdnsName + [s.wifiMode], s.wifiSsid);
    AtSplit(buf, pos, s.mdnsName, [s.wifiMode]);
    ReadFixedStringAt(buf, pos, s.mdnsName);
    ReadU8At(buf, pos + 32, s.wifiMode);
    ReadFixedStringAt(buf, pos + 33, s.wifiSsid);
    ReadFixedStringAt(buf, pos + 65, s.wifiPassword);
  }

  /** The first 12 bytes of the network half: two intervals and the time zone. */
  lemma TimingRead(buf: seq<byte>, pos: nat, s: DC.SysConfig)
    requires At(buf, pos, U32Bytes(s.wifiConnectionCheckInterval, WireOrder)
      + U32Bytes(s.wifiMaxConnectionAttemptInterval, WireOrder) + U32Bytes(s.timeZone, WireOrder))
    ensures ReadU32(buf, pos, WireOrder) == Some((s.wifiConnectionCheckInterval, pos + 4))
    ensures ReadU32(buf, pos + 4, WireOrder) == Some((s.wifiMaxConnectionAttemptInterval, pos + 8))
    ensures ReadF32(buf, pos + 8, WireOrder) == Some((s.timeZone, pos + 12))
  {
    var a, b, c := U32Bytes(s.wifiConnectionCheckInterval, WireOrder),
      U32Bytes(s.wifiMaxConnectionAttemptInterval, WireOrder), U32Bytes(s.timeZone, WireOrder);
    AtSplit(buf, pos, a + b, c);
    AtSplit(buf, pos, a, b);
    ReadU32At(buf, pos, s.wifiConnectionCheckInterval, WireOrder);
    ReadU32At(buf, pos + 4, s.wifiMaxConnectionAttemptInterval, WireOrder);
    ReadU32At(buf, pos + 8, s.timeZone, WireOrder);
  }

  /** The other 99 bytes: the MQTT switch, host, port, user and password. */
  lemma MqttRead(buf: seq<byte>, pos: nat, s: DC.SysConfig)
    requires At(buf, pos, [BoolByte(s.mqtt)] + s.mqttHost + U16Bytes(s.mqttPort, WireOrder)
      + s.mqttUser + s.mqttPassword)
    ensures ReadBool(buf, pos) == Some((s.mqtt, pos + 1))
    ensures ReadFixedStr(buf, pos + 1, DC.ConfigStringSize) == Some((CString(s.mqttHost), pos + 33))
    ensures ReadU16(buf, pos + 33, WireOrder) == Some((s.mqttPort, pos + 35))
    ensures ReadFixedStr(buf, pos + 35, DC.ConfigStringSize) == Some((CString(s.mqttUser), pos + 67))
    ensures ReadFixedStr(buf, pos + 67, DC.ConfigStringSize) == Some((CString(s.mqttPassword), pos + 99))
  {
    var d, e, f := [BoolByte(s.mqtt)], s.mqttHost, U16Bytes(s.mqttPort, WireOrder);
    var g, h := s.mqttUser, s.mqttPassword;
    AtSplit(buf, pos, d + e + f + g, h);
    AtSplit(buf, pos, d + e + f, g);
    AtSplit(buf, pos, d + e, f);
    AtSplit(buf, pos, d, e);
    ReadBoolAt(buf, pos, s.mqtt);
    ReadFixedStringAt(buf, pos + 1, s.mqttHost);
    ReadU16At(buf, pos + 33, s.mqttPort, WireOrder);
    ReadFixedStringAt(buf, pos + 35, s.mqttUser);
    ReadFixedStringAt(buf, pos + 67, s.mqttPassword);
  }

  lemma DecodeNetworkPacked(buf: seq<byte>, pos: nat, s: DC.SysConfig)
    requires At(buf, pos, NetworkBytes(s))
    ensures CC.DecodeNetwork(buf, pos) ==
      Some(((s.wifiConnectionCheckInterval, s.wifiMaxConnectionAttemptInterval, s.timeZone, s.mqtt,
        CString(s.mqttHost), s.mqttPort, CString(s.mqttUser), CString(s.mqttPassword)), pos + 111))
  {
    var t := U32Bytes(s.wifiConnectionCheckInterval, WireOrder)
      + U32Bytes(s.wifiMaxConnectionAttemptInterval, WireOrder) + U32Bytes(s.timeZone, WireOrder);
    var m := [BoolByte(s.mqtt)] + s.mqttHost + U16Bytes(s.mqttPort, WireOrder) + s.mqttUser + s.mqttPassword;
    assert NetworkBytes(s) == t + m;
    AtSplit(buf, pos, t, m);
    TimingRead(buf, pos, s);
    MqttRead(buf, pos + 12, s);
  }

  lemma DecodeSysConfigPacked(buf: seq<byte>, pos: nat, s: DC.SysConfig)
    requires At(buf, pos, DC.PackSysConfig(s))
    ensures CC.DecodeSysConfig(buf, pos) == Some((SysConfigView(s), pos + DC.SysConfigSize))
  {
    SysConfigHalves(s);
    AtSplit(buf, pos, WifiBytes(s), NetworkBytes(s));
    DecodeWifiPacked(buf, pos, s);
    DecodeNetworkPacked(buf, pos + 97, s);
  }

  /** Wherever the device's packed configuration lies in a buffer, the console's `parse` reads it
      back whole: every field as stored, strings up to their NUL, each variant block dispatched on
      its type byte, and the cursor 2287 bytes further on. */
  lemma DecodeConfigPacked(buf: seq<byte>, pos: nat, c: DC.Config)
    requires At(buf, pos, DC.PackConfig(c))
    ensures CC.DecodeConfig(buf, pos) == Some((ConfigView(c), pos + DC.ConfigSize))
  {
    var g := c.regulator;
    var s, k, p := DC.PackSensorConfig(g.sensor), DC.PackControlConfig(g.control), DC.PackPidConfig(g.pid);
    var n, y := DC.PackNightModeConfig(c.nightMode), DC.PackSysConfig(c.sysConfig);
    assert DC.PackConfig(c) == [BoolByte(c.power)] + s + k + p + n + y;
    AtSplit(buf, pos, [BoolByte(c.power)] + s + k + p + n, y);
    AtSplit(buf, pos, [BoolByte(c.power)] + s + k + p, n);
    AtSplit(buf, pos, [BoolByte(c.power)] + s + k, p);
    AtSplit(buf, pos, [BoolByte(c.power)] + s, k);
    AtSplit(buf, pos, [BoolByte(c.power)], s);
    ReadBoolAt(buf, pos, c.power);
    DecodeSensorPacked(buf, pos + 1, g.sensor);
    DecodeControlPacked(buf, pos + 1026, g.control);
    DecodePidPacked(buf, pos + 2051, g.pid);
    DecodeNightModePacked(buf, pos + 2070, c.nightMode);
    DecodeSysConfigPacked(buf, pos + 2079, c.sysConfig);
  }

  /** The exact bytes the device stores decode to its configuration. */
  lemma ConfigRoundTrip(c: DC.Config)
    ensures CC.DecodeConfig(DC.PackConfig(c), 0) == Some((ConfigView(c), DC.ConfigSize))
  {
    DecodeConfigPacked(DC.PackConfig(c), 0, c);
  }

  /** A buffer one byte short of a packed configuration is refused rather than read past its end. */
  lemma TruncatedConfigRefused(c: DC.Config)
    ensures CC.DecodeConfig(DC.PackConfig(c)[..DC.ConfigSize - 1], 0).None?
  {
  }

  /** A block whose first bytes are a packed analog configuration (type 0) shows exactly that
      configuration's pin and resolution under "analog". */
  lemma AnalogBlockParsed(a: Analog.AnalogSensorConfig, rest: seq<byte>)
    requires |Analog.Pack(a) + rest| == DC.DataBlockSize
    ensures CC.ParseSensorBlock(DC.SensorTypeAnalogValue, Analog.Pack(a) + rest)
      == map[CC.AnalogKey := CC.AnalogFields(a.pin, a.resolution)]
  {
    Analog.UnpackPack(a, rest);
  }

  /** A block whose first bytes are a packed DS18 configuration (type 1) shows exactly that
      configuration's pin, resolution and parasite flag under "dsx18x". */
  lemma Dsx18BlockParsed(d: Dsx18.Dsx18SensorConfig, rest: seq<byte>)
    requires |Dsx18.Pack(d) + rest| == DC.DataBlockSize
    ensures CC.ParseSensorBlock(DC.SensorTypeDsx18x, Dsx18.Pack(d) + rest)
      == map[CC.Dsx18Key := CC.Dsx18Fields(d.pin, d.resolution, d.parasite)]
  {
    Dsx18.UnpackPack(d, rest);
  }

  /** A block whose first bytes are a packed PWM configuration (control type 0) shows exactly
      that configuration's pin and period under "pwm". */
  lemma PwmBlockParsed(c: Pwm.PwmControlConfig, rest: seq<byte>)
    requires |Pwm.Pack(c) + rest| == DC.DataBlockSize
    ensures CC.ParseControlBlock(DC.ControlTypePwmValue, Pwm.Pack(c) + rest)
      == map[CC.PwmKey := CC.PwmFields(c.pin, c.period)]
  {
    Pwm.UnpackPack(c, rest);
  }

  /** What the console shows for the factory configuration: the DS18 variant with pin 2,
      resolution 10 and no parasite power, and PWM on pin 0 with a 500 ms period. */
  lemma DefaultConfigDecoded(b: DC.BuildDefaults)
    requires DC.FitsFields(b)
    ensures var r := CC.DecodeConfig(DC.PackConfig(DC.DefaultConfig(b)), 0);
      r.Some? && r.value.0.power &&
      r.value.0.sensor.parsed == map[CC.Dsx18Key := CC.Dsx18Fields(2, 10, false)] &&
      r.value.0.control.parsed == map[CC.PwmKey := CC.PwmFields(0, 500)] &&
      r.value.0.pid.interval == 1000 && !r.value.0.pid.reverse &&
      r.value.0.nightMode == CC.NightModeRecord(false, 0, 36000) &&
      r.value.0.sysConfig.mdnsName == DC.DefaultMdnsName
  {
    var c := DC.DefaultConfig(b);
    ConfigRoundTrip(c);
    DC.DefaultSensorLayout();
    DC.DefaultControlLayout();
    DC.DefaultValues(b);
    var sd := c.regulator.sensor.data;
    var cd := c.regulator.control.data;
    assert sd[0] == 2 && sd[1] == 10 && sd[2] == 0 by {
      assert sd[..3] == [2, 10, 0];
    }
    assert cd[0] == 0 && cd[1..3] == [0xF4, 0x01] by {
      assert cd[..3] == [0, 0xF4, 0x01];
    }
    assert U16Of(cd[1..3], WireOrder) == 500 by {
      assert [0xF4, 0x01] == U16Bytes(500, WireOrder);
      U16Inverse(500, WireOrder);
    }
  }

  /** The state request serialises RuntimeInfo, which holds only the two readings; the console's
      state decoder also expects the history after them, so those 8 bytes alone are refused. */
  lemma RuntimeInfoLacksHistory(r: DC.RuntimeInfo)
    ensures CC.DecodeState(DC.PackRuntimeInfo(r), 0).None?
  {
  }
  // ---------------------------------------------------------------------
  // The history ring, from the device's writes to the console's chart.

  /** A device sample as the console decodes it. */
  function PointOf(e: App.HistoryEntry): CC.HistoryPoint {
    CC.HistoryPoint(e.sensor, e.control)
  }

  function Points(es: seq<App.HistoryEntry>): (r: seq<CC.HistoryPoint>)
    ensures |r| == |es| && forall k :: 0 <= k < |es| ==> r[k] == PointOf(es[k])
  {
    seq(|es|, k requires 0 <= k < |es| => PointOf(es[k]))
  }

  /** The samples the console can plot: neither value is NaN. */
  predicate PointPlotted(p: CC.HistoryPoint) {
    !IsNaN(p.sensor) && !IsNaN(p.control)
  }

  predicate EntryPlotted(e: App.HistoryEntry) {
    PointPlotted(PointOf(e))
  }

  /** Slots holding the zero sample a value-initialised ring starts with. */
  function ZeroSlots(n: nat): (r: seq<App.HistoryEntry>)
    ensures |r| == n && forall k :: 0 <= k < n ==> r[k] == App.HistoryEntry(Zero, Zero)
  {
    seq(n, _ => App.HistoryEntry(Zero, Zero))
  }

  /** The ring right after power-up: every slot zero, index 0. */
  function BootRing(): (r: History.Ring<App.HistoryEntry>)
    ensures History.ValidRing(r) && |r.entries| == History.HistoryCount
  {
    History.Ring(ZeroSlots(History.HistoryCount), 0)
  }

  /** The pairs of floats of the history layout the console's state decoder reads. */
  function PackPoints(es: seq<App.HistoryEntry>): (r: seq<byte>)
    ensures |r| == CC.HistoryPointSize * |es|
  {
    if |es| == 0 then []
    else
      var last := es[|es| - 1];
      PackPoints(es[..|es| - 1]) + U32Bytes(last.sensor, WireOrder) + U32Bytes(last.control, WireOrder)
  }

  /** A count below 256 as a byte, counted up from zero. */
  function ByteOf(n: nat): byte
    requires n < 0x100
  {
    if n == 0 then 0 else ByteOf(n - 1) + 1
  }

  /** A count or index below 256 as a 16-bit field. */
  function Small16(n: nat): bv16
    requires n < 0x100
  {
    Join16(ByteOf(n), 0)
  }

  lemma ByteStep(b: byte)
    requires b as int < 0xFF
    ensures (b + 1) as int == b as int + 1
  {
  }

  lemma {:induction false} ByteOfValue(n: nat)
    requires n < 0x100
    ensures ByteOf(n) as int == n
  {
    if n > 0 {
      ByteOfValue(n - 1);
      ByteStep(ByteOf(n - 1));
    }
  }

  lemma WidenByte(b: byte)
    ensures Join16(b, 0) as int == b as int
  {
  }

  lemma Small16Value(n: nat)
    requires n < 0x100
    ensures Small16(n) as int == n
  {
    ByteOfValue(n);
    WidenByte(ByteOf(n));
  }

  /** A ring in that layout: u16 count, u16 index, then the pairs in slot order. */
  function HistoryBytes(r: History.Ring<App.HistoryEntry>): (b: seq<byte>)
    requires |r.entries| < 0x100 && r.index < 0x100
    ensures |b| == 4 + CC.HistoryPointSize * |r.entries|
  {
    U16Bytes(Small16(|r.entries|), WireOrder) + U16Bytes(Small16(r.index), WireOrder) + PackPoints(r.entries)
  }

  /** One sample pair of the history layout: two floats, sensor first. */
  lemma PointRead(buf: seq<byte>, pos: nat, e: App.HistoryEntry)
    requires At(buf, pos, U32Bytes(e.sensor, WireOrder) + U32Bytes(e.control, WireOrder))
    ensures ReadF32(buf, pos, WireOrder) == Some((e.sensor, pos + 4))
    ensures ReadF32(buf, pos + 4, WireOrder) == Some((e.control, pos + 8))
  {
    AtSplit(buf, pos, U32Bytes(e.sensor, WireOrder), U32Bytes(e.control, WireOrder));
    ReadU32At(buf, pos, e.sensor, WireOrder);
    ReadU32At(buf, pos + 4, e.control, WireOrder);
  }

  lemma {:induction false} DecodePointsPacked(buf: seq<byte>, pos: nat, es: seq<App.HistoryEntry>)
    requires At(buf, pos, PackPoints(es))
    ensures CC.DecodeHistoryPoints(buf, pos, |es|) == Some((Points(es), pos + CC.HistoryPointSize * |es|))
    decreases |es|
  {
    if |es| > 0 {
      var front, last := es[..|es| - 1], es[|es| - 1];
      var pair := U32Bytes(last.sensor, WireOrder) + U32Bytes(last.control, WireOrder);
      assert PackPoints(es) == PackPoints(front) + pair;
      AtSplit(buf, pos, PackPoints(front), pair);
      DecodePointsPacked(buf, pos, front);
      var p := pos + CC.HistoryPointSize * |front|;
      PointRead(buf, p, last);
      assert p + 8 == pos + CC.HistoryPointSize * |es|;
      PointsSnoc(es);
    }
  }

  lemma PointsSnoc(es: seq<App.HistoryEntry>)
    requires |es| > 0
    ensures Points(es) == Points(es[..|es| - 1]) + [PointOf(es[|es| - 1])]
  {
  }

  /** The history layout decodes in place, wherever it lies in a buffer. */
  lemma HistoryAt(buf: seq<byte>, pos: nat, r: History.Ring<App.HistoryEntry>)
    requires |r.entries| < 0x100 && r.index < 0x100
    requires At(buf, pos, HistoryBytes(r))
    ensures CC.DecodeHistory(buf, pos) ==
      Some((CC.HistoryRecord(|r.entries|, r.index, Points(r.entries)), pos + 4 + CC.HistoryPointSize * |r.entries|))
  {
    var c, x := U16Bytes(Small16(|r.entries|), WireOrder), U16Bytes(Small16(r.index), WireOrder);
    AtSplit(buf, pos, c + x, PackPoints(r.entries));
    AtSplit(buf, pos, c, x);
    U16Inverse(Small16(|r.entries|), WireOrder);
    U16Inverse(Small16(r.index), WireOrder);
    Small16Value(|r.entries|);
    Small16Value(r.index);
    DecodePointsPacked(buf, pos + 4, r.entries);
  }

  /** The console's history decoder inverts that layout. */
  lemma HistoryRoundTrip(r: History.Ring<App.HistoryEntry>)
    requires |r.entries| < 0x100 && r.index < 0x100
    ensures CC.DecodeHistory(HistoryBytes(r), 0) ==
      Some((CC.HistoryRecord(|r.entries|, r.index, Points(r.entries)), 4 + CC.HistoryPointSize * |r.entries|))
  {
    HistoryAt(HistoryBytes(r), 0, r);
  }

  /** A state packet that carries the ring after the two readings, as the application's service
      loop and the console's state decoder both expect, decodes to those readings and that ring. */
  lemma StateRoundTrip(info: DC.RuntimeInfo, r: History.Ring<App.HistoryEntry>)
    requires |r.entries| < 0x100 && r.index < 0x100
    ensures CC.DecodeState(DC.PackRuntimeInfo(info) + HistoryBytes(r), 0) ==
      Some((CC.StateRecord(info.sensorValue, info.controlValue,
                           CC.HistoryRecord(|r.entries|, r.index, Points(r.entries))),
            DC.RuntimeInfoSize + 4 + CC.HistoryPointSize * |r.entries|))
  {
    var a, b := U32Bytes(info.sensorValue, WireOrder), U32Bytes(info.controlValue, WireOrder);
    var buf := DC.PackRuntimeInfo(info) + HistoryBytes(r);
    assert buf == a + b + HistoryBytes(r);
    assert At(buf, 0, a + b + HistoryBytes(r));
    AtSplit(buf, 0, a + b, HistoryBytes(r));
    AtSplit(buf, 0, a, b);
    ReadU32At(buf, 0, info.sensorValue, WireOrder);
    ReadU32At(buf, 4, info.controlValue, WireOrder);
    HistoryAt(buf, 8, r);
  }

  lemma PointsRotation(es: seq<App.HistoryEntry>, index: nat)
    ensures History.Rotation(Points(es), index) == Points(History.Rotation(es, index))
  {
  }

  lemma PointsConcat(a: seq<App.HistoryEntry>, b: seq<App.HistoryEntry>)
    ensures Points(a + b) == Points(a) + Points(b)
  {
  }

  lemma {:induction false} PointsFilter(s: seq<App.HistoryEntry>)
    ensures History.Filter(Points(s), PointPlotted) == Points(History.Filter(s, EntryPlotted))
  {
    if |s| > 0 {
      var ps, rest := Points(s), s[1..];
      assert ps[0] == PointOf(s[0]) && ps[1..] == Points(rest);
      PointsFilter(rest);
      var head := if EntryPlotted(s[0]) then [s[0]] else [];
      assert History.Filter(s, EntryPlotted) == head + History.Filter(rest, EntryPlotted);
      PointsConcat(head, History.Filter(rest, EntryPlotted));
      assert Points(head) == if PointPlotted(ps[0]) then [ps[0]] else [];
    }
  }

  /** What the device's ring looks like from the console after the first writes: the rotation
      from `index` is the boot slots not yet overwritten, then the samples written. */
  lemma BootRotation(xs: seq<App.HistoryEntry>)
    requires |xs| < History.HistoryCount
    ensures var w := History.WriteAll(BootRing(), xs);
      History.Rotation(w.entries, w.index) == ZeroSlots(History.HistoryCount - |xs|) + xs
  {
    var r := BootRing();
    History.RotationAfterWrites(r, xs);
    var a := History.Rotation(r.entries, r.index);
    assert a == r.entries;
    assert (a + xs)[|xs|..] == ZeroSlots(History.HistoryCount - |xs|) + xs;
  }

  lemma ZeroPlotted()
    ensures EntryPlotted(App.HistoryEntry(Zero, Zero))
  {
  }

  lemma ZeroSlotsShown(n: nat)
    ensures History.Filter(ZeroSlots(n), EntryPlotted) == ZeroSlots(n)
  {
    ZeroPlotted();
    History.FilterKeepsAll(ZeroSlots(n), EntryPlotted);
  }

  /** Before the ring wraps, the console shows the zero samples the ring started with, then the
      plottable samples written, oldest first. */
  lemma HistoryBeforeWrap(xs: seq<App.HistoryEntry>)
    requires |xs| < History.HistoryCount
    ensures var w := History.WriteAll(BootRing(), xs);
      History.Ordered(w.entries, w.index, EntryPlotted) ==
        ZeroSlots(History.HistoryCount - |xs|) + History.Filter(xs, EntryPlotted)
  {
    BootRotation(xs);
    var zeros := ZeroSlots(History.HistoryCount - |xs|);
    History.FilterConcat(zeros, xs, EntryPlotted);
    ZeroSlotsShown(History.HistoryCount - |xs|);
  }

  /** What the console reconstructs from the device's ring after any run of PID steps since
      power-up, oldest first and newest last: once the ring has wrapped, the plottable samples
      among the last HISTORY_COUNT written; before that, the zero samples the ring started with,
      then the plottable samples written. */
  lemma DeviceHistoryShown(xs: seq<App.HistoryEntry>)
    ensures var w := History.WriteAll(BootRing(), xs);
      History.Ordered(w.entries, w.index, EntryPlotted) ==
        if |xs| >= History.HistoryCount then History.Filter(xs[|xs| - History.HistoryCount..], EntryPlotted)
        else ZeroSlots(History.HistoryCount - |xs|) + History.Filter(xs, EntryPlotted)
  {
    if |xs| >= History.HistoryCount {
      History.ShownAfterFullRing(BootRing(), xs, EntryPlotted);
    } else {
      HistoryBeforeWrap(xs);
    }
  }

  /** The same through the wire: the ring sent in the state decoder's history layout decodes to
      HISTORY_COUNT slots, and reconstructing from the decoded slots gives those samples. */
  lemma HistoryShownOnConsole(xs: seq<App.HistoryEntry>)
    ensures var w := History.WriteAll(BootRing(), xs);
      var d := CC.DecodeHistory(HistoryBytes(w), 0);
      d.Some? && d.value.0.count == History.HistoryCount &&
      History.Ordered(d.value.0.entries, d.value.0.index, PointPlotted) ==
        Points(History.Ordered(w.entries, w.index, EntryPlotted))
  {
    var w := History.WriteAll(BootRing(), xs);
    HistoryRoundTrip(w);
    PointsRotation(w.entries, w.index);
    PointsFilter(History.Rotation(w.entries, w.index));
  }
  // ---------------------------------------------------------------------
  // The console's commands against the device's parameter tables.

  /** The device parameter a console entry of this wire kind can be sent to. */
  predicate KindMatches(k: CC.WireKind, p: M.ParamType) {
    match k
    case BooleanKind => p == M.PBool
    case Uint8Kind => p == M.PUint8
    case Uint16Kind => p == M.PUint16
    case Uint32Kind => p == M.PUint32
    case Float32Kind => p == M.PFloat
    case FixedStringKind => p == M.PFixedString(DC.ConfigStringSize)
    case BinaryKind => p.PComplex?
  }

  /** Some entry of the table binds packet type c to a parameter that reads kind k. */
  ghost predicate Binds(t: seq<M.MetaEntry>, c: P.PacketType, k: CC.WireKind) {
    exists j :: 0 <= j < |t| && t[j].packetType == Some(c) && KindMatches(k, t[j].param)
  }

  /** The status entries carry what the device pushes, not parameters it accepts. */
  predicate Notification(c: P.PacketType) {
    c == P.SensorValue || c == P.ControlValue || c == P.HistoryData
  }

  /** An entry the console sends: it has a command that is not a notification. */
  predicate Sent(p: Props.Prop) {
    p.cmd.Some? && !Notification(p.cmd.value)
  }

  /** Whether the console shows an entry for a sensor record of this type byte: a variant's
      entries are visible only while their `parsed` key is present, that is only for the type
      that selects that variant. */
  predicate Visible(p: Props.Prop, sensorType: byte) {
    (p.visibleIf == Some("sensor.parsed.analog") ==> sensorType == DC.SensorTypeAnalogValue) &&
    (p.visibleIf == Some("sensor.parsed.dsx18x") ==> sensorType == DC.SensorTypeDsx18x)
  }

  /** How the console decides a sensor entry's `visibleIf`: the path under `sensor.parsed` it
      names leads to a key of the parsed record. */
  predicate ShownFor(p: Props.Prop, parsed: map<string, CC.Parsed>) {
    (p.visibleIf == Some("sensor.parsed." + CC.AnalogKey) ==> CC.AnalogKey in parsed) &&
    (p.visibleIf == Some("sensor.parsed." + CC.Dsx18Key) ==> CC.Dsx18Key in parsed)
  }

  /** `Visible` is the console's own visibility: the key `#parseSensor` produces for the block
      decides it, whatever the block holds. */
  lemma VisibleIsParsedKey(p: Props.Prop, sensorType: byte, data: seq<byte>)
    requires |data| == DC.DataBlockSize
    ensures Visible(p, sensorType) <==> ShownFor(p, CC.ParseSensorBlock(sensorType, data))
  {
    assert "sensor.parsed." + CC.AnalogKey == "sensor.parsed.analog";
    assert "sensor.parsed." + CC.Dsx18Key == "sensor.parsed.dsx18x";
  }

  /** The registration the device makes for a sensor record of this type byte. */
  function Registration(sensorType: byte): seq<M.MetaEntry> {
    M.Registered(App.SensorMetaFor(App.SensorVariantFor(sensorType)))
  }

  /** A console entry the device accepts: shown for this sensor type and sent, so bound on the
      device to a parameter of the entry's wire kind. */
  ghost predicate Served(p: Props.Prop, sensorType: byte) {
    Sent(p) && Visible(p, sensorType) ==>
      p.kind.Some? && Binds(Registration(sensorType), p.cmd.value, p.kind.value)
  }

  ghost predicate AllServed(props: seq<Props.Prop>, sensorType: byte) {
    forall i | 0 <= i < |props| :: Served(props[i], sensorType)
  }

  lemma BindsLeft(a: seq<M.MetaEntry>, b: seq<M.MetaEntry>, c: P.PacketType, k: CC.WireKind)
    requires Binds(a, c, k)
    ensures Binds(a + b, c, k)
  {
    var j :| 0 <= j < |a| && a[j].packetType == Some(c) && KindMatches(k, a[j].param);
    assert (a + b)[j] == a[j];
  }

  lemma BindsRight(a: seq<M.MetaEntry>, b: seq<M.MetaEntry>, c: P.PacketType, k: CC.WireKind)
    requires Binds(b, c, k)
    ensures Binds(a + b, c, k)
  {
    var j :| 0 <= j < |b| && b[j].packetType == Some(c) && KindMatches(k, b[j].param);
    assert (a + b)[|a| + j] == b[j];
  }

  /** What the console can send to the base table is registered whatever the sensor. */
  lemma BaseRegistered(c: P.PacketType, k: CC.WireKind, sensorType: byte)
    requires Binds(M.BuildMetadata(), c, k)
    ensures Binds(Registration(sensorType), c, k)
  {
    var h := App.SensorMetaFor(App.SensorVariantFor(sensorType));
    BindsLeft(M.BuildMetadata(), h.table, c, k);
    BindsLeft(M.BuildMetadata() + h.table, M.PwmControlMeta(), c, k);
  }

  lemma PwmRegistered(c: P.PacketType, k: CC.WireKind, sensorType: byte)
    requires Binds(M.PwmControlMeta(), c, k)
    ensures Binds(Registration(sensorType), c, k)
  {
    var h := App.SensorMetaFor(App.SensorVariantFor(sensorType));
    BindsRight(M.BuildMetadata() + h.table, M.PwmControlMeta(), c, k);
  }

  lemma VariantRegistered(c: P.PacketType, k: CC.WireKind, sensorType: byte)
    requires Binds(App.SensorMetaFor(App.SensorVariantFor(sensorType)).table, c, k)
    ensures Binds(Registration(sensorType), c, k)
  {
    var h := App.SensorMetaFor(App.SensorVariantFor(sensorType));
    BindsRight(M.BuildMetadata(), h.table, c, k);
    BindsLeft(M.BuildMetadata() + h.table, M.PwmControlMeta(), c, k);
  }

  lemma PowerInBase(c: P.PacketType, k: CC.WireKind)
    requires Binds(M.PowerMeta(), c, k)
    ensures Binds(M.BuildMetadata(), c, k)
  {
    var a, b, n, y, d := M.PowerMeta(), M.RegulatorMeta(), M.NightModeMeta(), M.SysConfigMeta(), M.DataMeta();
    BindsLeft(a, b, c, k);
    BindsLeft(a + b, n, c, k);
    BindsLeft(a + b + n, y, c, k);
    BindsLeft(a + b + n + y, d, c, k);
  }

  lemma RegulatorInBase(c: P.PacketType, k: CC.WireKind)
    requires Binds(M.RegulatorMeta(), c, k)
    ensures Binds(M.BuildMetadata(), c, k)
  {
    var a, b, n, y, d := M.PowerMeta(), M.RegulatorMeta(), M.NightModeMeta(), M.SysConfigMeta(), M.DataMeta();
    BindsRight(a, b, c, k);
    BindsLeft(a + b, n, c, k);
    BindsLeft(a + b + n, y, c, k);
    BindsLeft(a + b + n + y, d, c, k);
  }

  lemma NightModeInBase(c: P.PacketType, k: CC.WireKind)
    requires Binds(M.NightModeMeta(), c, k)
    ensures Binds(M.BuildMetadata(), c, k)
  {
    var a, b, n, y, d := M.PowerMeta(), M.RegulatorMeta(), M.NightModeMeta(), M.SysConfigMeta(), M.DataMeta();
    BindsRight(a + b, n, c, k);
    BindsLeft(a + b + n, y, c, k);
    BindsLeft(a + b + n + y, d, c, k);
  }

  lemma SysConfigInBase(c: P.PacketType, k: CC.WireKind)
    requires Binds(M.SysConfigMeta(), c, k)
    ensures Binds(M.BuildMetadata(), c, k)
  {
    var a, b, n, y, d := M.PowerMeta(), M.RegulatorMeta(), M.NightModeMeta(), M.SysConfigMeta(), M.DataMeta();
    BindsRight(a + b + n, y, c, k);
    BindsLeft(a + b + n + y, d, c, k);
  }

  lemma StatusServed(sensorType: byte)
    ensures AllServed(Props.StatusSection().props, sensorType)
  {
  }

  lemma GeneralServed(sensorType: byte)
    ensures AllServed(Props.GeneralSection().props, sensorType)
  {
    var t := M.PowerMeta();
    assert t[0].packetType == Some(P.Power) && KindMatches(CC.BooleanKind, t[0].param);
    PowerInBase(P.Power, CC.BooleanKind);
    BaseRegistered(P.Power, CC.BooleanKind, sensorType);
  }

  lemma NightModeServed(sensorType: byte)
    ensures AllServed(Props.NightModeSection().props, sensorType)
  {
    var props, t := Props.NightModeSection().props, M.NightModeMeta();
    forall i | 0 <= i < |props| ensures Served(props[i], sensorType) {
      var c, k := props[i].cmd.value, props[i].kind.value;
      assert t[i].packetType == Some(c) && KindMatches(k, t[i].param);
      NightModeInBase(c, k);
      BaseRegistered(c, k, sensorType);
    }
  }
  /** For each PID entry, the slot of the regulator table that binds its command. */
  const PidSlots: seq<nat> := [2, 6, 0, 3, 4, 5, 0, 7]

  lemma PidServed(sensorType: byte)
    ensures AllServed(Props.PidSection().props, sensorType)
  {
    var props, t := Props.PidSection().props, M.RegulatorMeta();
    forall i | 0 <= i < |props| ensures Served(props[i], sensorType) {
      if Sent(props[i]) {
        var c, k := props[i].cmd.value, props[i].kind.value;
        assert t[PidSlots[i]].packetType == Some(c) && KindMatches(k, t[PidSlots[i]].param);
        RegulatorInBase(c, k);
        BaseRegistered(c, k, sensorType);
      }
    }
  }

  /** For each system entry, the slot of the system-settings table that binds its command. */
  const SystemSlots: seq<nat> := [0, 0, 1, 2, 3, 0, 4, 5, 0, 6, 0, 7, 8, 9, 10, 11, 0, 0]

  lemma SystemSlotsBindFront(i: nat)
    requires i < 6 && Sent(Props.SystemSection().props[i])
    ensures var p := Props.SystemSection().props[i];
      p.kind.Some? && Binds(M.SysConfigMeta(), p.cmd.value, p.kind.value)
  {
    var p, t := Props.SystemSection().props[i], M.SysConfigMeta();
    assert t[SystemSlots[i]].packetType == p.cmd && KindMatches(p.kind.value, t[SystemSlots[i]].param);
  }

  lemma SystemSlotsBindMiddle(i: nat)
    requires 6 <= i < 12 && Sent(Props.SystemSection().props[i])
    ensures var p := Props.SystemSection().props[i];
      p.kind.Some? && Binds(M.SysConfigMeta(), p.cmd.value, p.kind.value)
  {
    var p, t := Props.SystemSection().props[i], M.SysConfigMeta();
    assert t[SystemSlots[i]].packetType == p.cmd && KindMatches(p.kind.value, t[SystemSlots[i]].param);
  }

  lemma SystemSlotsBindBack(i: nat)
    requires 12 <= i < |Props.SystemSection().props| && Sent(Props.SystemSection().props[i])
    ensures var p := Props.SystemSection().props[i];
      p.kind.Some? && Binds(M.SysConfigMeta(), p.cmd.value, p.kind.value)
  {
    var p, t := Props.SystemSection().props[i], M.SysConfigMeta();
    assert t[SystemSlots[i]].packetType == p.cmd && KindMatches(p.kind.value, t[SystemSlots[i]].param);
  }

  lemma SystemServed(sensorType: byte)
    ensures AllServed(Props.SystemSection().props, sensorType)
  {
    var props := Props.SystemSection().props;
    forall i | 0 <= i < |props| ensures Served(props[i], sensorType) {
      if Sent(props[i]) {
        if i < 6 {
          SystemSlotsBindFront(i);
        } else if i < 12 {
          SystemSlotsBindMiddle(i);
        } else {
          SystemSlotsBindBack(i);
        }
        SysConfigInBase(props[i].cmd.value, props[i].kind.value);
        BaseRegistered(props[i].cmd.value, props[i].kind.value, sensorType);
      }
    }
  }

  lemma TypesBound(sensorType: byte)
    ensures Binds(Registration(sensorType), P.SensorType, CC.Uint8Kind)
    ensures Binds(Registration(sensorType), P.ControlType, CC.Uint8Kind)
  {
    var g := M.RegulatorMeta();
    assert g[0].packetType == Some(P.SensorType) && KindMatches(CC.Uint8Kind, g[0].param);
    assert g[1].packetType == Some(P.ControlType) && KindMatches(CC.Uint8Kind, g[1].param);
    RegulatorInBase(P.SensorType, CC.Uint8Kind);
    RegulatorInBase(P.ControlType, CC.Uint8Kind);
    BaseRegistered(P.SensorType, CC.Uint8Kind, sensorType);
    BaseRegistered(P.ControlType, CC.Uint8Kind, sensorType);
  }

  lemma PwmBound(sensorType: byte)
    ensures Binds(Registration(sensorType), P.PwmControlPin, CC.Uint8Kind)
    ensures Binds(Registration(sensorType), P.PwmControlPeriod, CC.Uint16Kind)
  {
    var w := M.PwmControlMeta();
    assert w[0].packetType == Some(P.PwmControlPin) && KindMatches(CC.Uint8Kind, w[0].param);
    assert w[1].packetType == Some(P.PwmControlPeriod) && KindMatches(CC.Uint16Kind, w[1].param);
    PwmRegistered(P.PwmControlPin, CC.Uint8Kind, sensorType);
    PwmRegistered(P.PwmControlPeriod, CC.Uint16Kind, sensorType);
  }

  lemma ControlServed(sensorType: byte)
    ensures AllServed(Props.ControlSection().props, sensorType)
  {
    var props := Props.ControlSection().props;
    forall i | 0 <= i < |props| ensures Served(props[i], sensorType) {
      if i == 0 {
        TypesBound(sensorType);
      } else if i == 2 || i == 3 {
        PwmBound(sensorType);
      }
    }
  }

  lemma AnalogBound()
    ensures Binds(Registration(DC.SensorTypeAnalogValue), P.AnalogSensorPin, CC.Uint8Kind)
    ensures Binds(Registration(DC.SensorTypeAnalogValue), P.AnalogSensorResolution, CC.Uint8Kind)
  {
    var v := App.SensorMetaFor(App.SensorVariantFor(DC.SensorTypeAnalogValue)).table;
    assert v == M.AnalogSensorMeta();
    assert v[0].packetType == Some(P.AnalogSensorPin) && KindMatches(CC.Uint8Kind, v[0].param);
    assert v[1].packetType == Some(P.AnalogSensorResolution) && KindMatches(CC.Uint8Kind, v[1].param);
    VariantRegistered(P.AnalogSensorPin, CC.Uint8Kind, DC.SensorTypeAnalogValue);
    VariantRegistered(P.AnalogSensorResolution, CC.Uint8Kind, DC.SensorTypeAnalogValue);
  }

  lemma Dsx18Bound()
    ensures Binds(Registration(DC.SensorTypeDsx18x), P.Dsx18SensorPin, CC.Uint8Kind)
    ensures Binds(Registration(DC.SensorTypeDsx18x), P.Dsx18SensorResolution, CC.Uint8Kind)
    ensures Binds(Registration(DC.SensorTypeDsx18x), P.Dsx18SensorParasite, CC.BooleanKind)
  {
    var v := App.SensorMetaFor(App.SensorVariantFor(DC.SensorTypeDsx18x)).table;
    assert v == M.Dsx18SensorMeta();
    assert v[0].packetType == Some(P.Dsx18SensorPin) && KindMatches(CC.Uint8Kind, v[0].param);
    assert v[1].packetType == Some(P.Dsx18SensorResolution) && KindMatches(CC.Uint8Kind, v[1].param);
    assert v[2].packetType == Some(P.Dsx18SensorParasite) && KindMatches(CC.BooleanKind, v[2].param);
    VariantRegistered(P.Dsx18SensorPin, CC.Uint8Kind, DC.SensorTypeDsx18x);
    VariantRegistered(P.Dsx18SensorResolution, CC.Uint8Kind, DC.SensorTypeDsx18x);
    VariantRegistered(P.Dsx18SensorParasite, CC.BooleanKind, DC.SensorTypeDsx18x);
  }

  /** The sensor type entry is always sent; each variant's entries, visible only for the type
      byte that selects that variant on the device, are bound by that variant's table. */
  lemma SensorServed(sensorType: byte)
    ensures AllServed(Props.SensorSection().props, sensorType)
  {
    TypesBound(sensorType);
    var props := Props.SensorSection().props;
    forall i | 0 <= i < |props| ensures Served(props[i], sensorType) {
      if 2 <= i < 4 && sensorType == DC.SensorTypeAnalogValue {
        AnalogBound();
      } else if 5 <= i < 8 && sensorType == DC.SensorTypeDsx18x {
        Dsx18Bound();
      }
    }
  }

  lemma {:induction false} FlattenServed(ss: seq<Props.Section>, sensorType: byte)
    requires forall k | 0 <= k < |ss| :: AllServed(ss[k].props, sensorType)
    ensures AllServed(Props.Flatten(ss), sensorType)
  {
    if |ss| > 0 {
      var front := ss[..|ss| - 1];
      FlattenServed(front, sensorType);
      var a, b := Props.Flatten(front), ss[|ss| - 1].props;
      forall i | 0 <= i < |a + b| ensures Served((a + b)[i], sensorType) {
        if i < |a| {
          assert (a + b)[i] == a[i];
        } else {
          assert (a + b)[i] == b[i - |a|];
        }
      }
    }
  }

  /** Whatever sensor type the device runs, every entry the console shows and sends is bound
      on the device to a parameter of the entry's wire kind, so a property change the console
      sends is never ignored as unregistered. */
  lemma ConsoleCommandsBound(sensorType: byte)
    ensures AllServed(Props.Flatten(Props.PropertyConfig()), sensorType)
  {
    StatusServed(sensorType);
    GeneralServed(sensorType);
    NightModeServed(sensorType);
    SensorServed(sensorType);
    ControlServed(sensorType);
    PidServed(sensorType);
    SystemServed(sensorType);
    FlattenServed(Props.PropertyConfig(), sensorType);
  }
}
