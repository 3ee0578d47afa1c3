/**
 * The console's view of the device configuration: `Config.parse` reads
 * the packed configuration field by field with one cursor, the sensor and
 * control blocks are reread from their own offset 0 by a fresh parser and
 * dispatched on their type byte, and the state packet carries the two
 * runtime readings followed by the two-float history shape.
 *
 * Every decoder is a function on bytes with an explicit position; the
 * `Config` class performs the same reads through a `BinaryParser` and is
 * proved to agree with them. A read past the end of the buffer fails, and
 * the parse stops there, leaving every field it had not yet reached as it
 * was.
 */
module ConsoleConfig {
  import opened Wrappers
  import opened Wire
  import opened Float32
  import DC = DeviceConfig
  import Dsx18
  import Analog
  import Pwm

  /** One variant record under `sensor.parsed` or `control.parsed`. */
  datatype Parsed =
    | AnalogFields(pin: byte, resolution: byte)
    | Dsx18Fields(pin: byte, resolution: byte, parasite: bool)
    | PwmFields(pin: byte, period: bv16)

  datatype SensorRecord = SensorRecord(sensorType: byte, data: seq<byte>, parsed: map<string, Parsed>)
  datatype ControlRecord = ControlRecord(controlType: byte, data: seq<byte>, parsed: map<string, Parsed>)
  datatype PidRecord = PidRecord(target: f32, p: f32, i: f32, d: f32, interval: bv16, reverse: bool)
  datatype NightModeRecord = NightModeRecord(enabled: bool, startTime: bv32, endTime: bv32)
  datatype SysConfigRecord = SysConfigRecord(
    mdnsName: seq<byte>,
    wifiMode: byte,
    wifiSsid: seq<byte>,
    wifiPassword: seq<byte>,
    wifiConnectionCheckInterval: bv32,
    wifiMaxConnectionAttemptInterval: bv32,
    timeZone: f32,
    mqtt: bool,
    mqttHost: seq<byte>,
    mqttPort: bv16,
    mqttUser: seq<byte>,
    mqttPassword: seq<byte>)
  datatype ConfigRecord = ConfigRecord(
    power: bool, sensor: SensorRecord, control: ControlRecord,
    pid: PidRecord, nightMode: NightModeRecord, sysConfig: SysConfigRecord)

  datatype HistoryPoint = HistoryPoint(sensor: f32, control: f32)
  datatype HistoryRecord = HistoryRecord(count: nat, index: nat, entries: seq<HistoryPoint>)
  datatype StateRecord = StateRecord(sensorValue: f32, controlValue: f32, history: HistoryRecord)

  datatype ListItem = ListItem(code: nat, name: string)

  const AnalogKey: string := "analog"
  const Dsx18Key: string := "dsx18x"
  const PwmKey: string := "pwm"

  const HistoryPointSize: nat := 8

  // ---------------------------------------------------------------------
  // The variant blocks.

  /** #parseSensor on a 1024-byte block: type 0 is analog (pin, resolution), type 1 is
      DS18 (pin, resolution, parasite); any other type leaves `parsed` empty. The fields read
      are the ones the firmware's sensor takes from the same block. */
  function ParseSensorBlock(sensorType: byte, data: seq<byte>): (parsed: map<string, Parsed>)
    requires |data| == DC.DataBlockSize
    ensures |parsed| <= 1 && PwmKey !in parsed
    ensures AnalogKey in parsed <==> sensorType == 0
    ensures Dsx18Key in parsed <==> sensorType == 1
    ensures sensorType == 0 ==> var a := Analog.Unpack(data);
      parsed[AnalogKey] == AnalogFields(a.pin, a.resolution)
    ensures sensorType == 1 ==> var d := Dsx18.Unpack(data);
      parsed[Dsx18Key] == Dsx18Fields(d.pin, d.resolution, d.parasite)
  {
    if sensorType == 0 then map[AnalogKey := AnalogFields(data[0], data[1])]
    else if sensorType == 1 then map[Dsx18Key := Dsx18Fields(data[0], data[1], data[2] != 0)]
    else map[]
  }

  /** #parseControl on a 1024-byte block: type 0 is PWM (pin, u16 period); any other type
      leaves `parsed` empty. The fields read are the ones the firmware's control takes from
      the same block. */
  function ParseControlBlock(controlType: byte, data: seq<byte>): (parsed: map<string, Parsed>)
    requires |data| == DC.DataBlockSize
    ensures |parsed| <= 1 && AnalogKey !in parsed && Dsx18Key !in parsed
    ensures PwmKey in parsed <==> controlType == 0
    ensures controlType == 0 ==> var c := Pwm.Unpack(data);
      parsed[PwmKey] == PwmFields(c.pin, c.period)
  {
    if controlType == 0 then map[PwmKey := PwmFields(data[0], U16Of(data[1..3], WireOrder))] else map[]
  }

  // ---------------------------------------------------------------------
  // The configuration, field group by field group.

  /** A type byte and a 1024-byte block, whatever the type says. */
  function DecodeSensor(buf: seq<byte>, pos: nat): (r: Option<(SensorRecord, nat)>)
    ensures r.Some? <==> pos + DC.SensorConfigSize <= |buf|
    ensures r.Some? ==> r.value.1 == pos + DC.SensorConfigSize && |r.value.0.data| == DC.DataBlockSize
  {
    var (t, p1) :- ReadU8(buf, pos);
    var (data, p2) :- ReadBytes(buf, p1, DC.DataBlockSize);
    Some((SensorRecord(t, data, ParseSensorBlock(t, data)), p2))
  }

  function DecodeControl(buf: seq<byte>, pos: nat): (r: Option<(ControlRecord, nat)>)
    ensures r.Some? <==> pos + DC.ControlConfigSize <= |buf|
    ensures r.Some? ==> r.value.1 == pos + DC.ControlConfigSize && |r.value.0.data| == DC.DataBlockSize
  {
    var (t, p1) :- ReadU8(buf, pos);
    var (data, p2) :- ReadBytes(buf, p1, DC.DataBlockSize);
    Some((ControlRecord(t, data, ParseControlBlock(t, data)), p2))
  }

  function DecodePid(buf: seq<byte>, pos: nat): (r: Option<(PidRecord, nat)>)
    ensures r.Some? <==> pos + DC.PidConfigSize <= |buf|
    ensures r.Some? ==> r.value.1 == pos + DC.PidConfigSize
  {
    var (target, p1) :- ReadF32(buf, pos, WireOrder);
    var (kp, p2) :- ReadF32(buf, p1, WireOrder);
    var (ki, p3) :- ReadF32(buf, p2, WireOrder);
    var (kd, p4) :- ReadF32(buf, p3, WireOrder);
    var (interval, p5) :- ReadU16(buf, p4, WireOrder);
    var (reverse, p6) :- ReadBool(buf, p5);
    Some((PidRecord(target, kp, ki, kd, interval, reverse), p6))
  }

  function DecodeNightMode(buf: seq<byte>, pos: nat): (r: Option<(NightModeRecord, nat)>)
    ensures r.Some? <==> pos + DC.NightModeConfigSize <= |buf|
    ensures r.Some? ==> r.value.1 == pos + DC.NightModeConfigSize
  {
    var (enabled, p1) :- ReadBool(buf, pos);
    var (startTime, p2) :- ReadU32(buf, p1, WireOrder);
    var (endTime, p3) :- ReadU32(buf, p2, WireOrder);
    Some((NightModeRecord(enabled, startTime, endTime), p3))
  }

  /** The name, mode and Wi-Fi credentials: 97 bytes. */
  function DecodeWifi(buf: seq<byte>, pos: nat): (r: Option<((seq<byte>, byte, seq<byte>, seq<byte>), nat)>)
    ensures r.Some? <==> pos + 97 <= |buf|
    ensures r.Some? ==> r.value.1 == pos + 97
  {
    var (mdnsName, p1) :- ReadFixedStr(buf, pos, DC.ConfigStringSize);
    var (wifiMode, p2) :- ReadU8(buf, p1);
    var (ssid, p3) :- ReadFixedStr(buf, p2, DC.ConfigStringSize);
    var (password, p4) :- ReadFixedStr(buf, p3, DC.ConfigStringSize);
    Some(((mdnsName, wifiMode, ssid, password), p4))
  }

  /** The two intervals, the time zone and the MQTT settings: 111 bytes. */
  function DecodeNetwork(buf: seq<byte>, pos: nat): (r: Option<((bv32, bv32, f32, bool, seq<byte>, bv16, seq<byte>, seq<byte>), nat)>)
    ensures r.Some? <==> pos + 111 <= |buf|
    ensures r.Some? ==> r.value.1 == pos + 111
  {
    var (check, p1) :- ReadU32(buf, pos, WireOrder);
    var (maxAttempt, p2) :- ReadU32(buf, p1, WireOrder);
    var (timeZone, p3) :- ReadF32(buf, p2, WireOrder);
    var (mqtt, p4) :- ReadBool(buf, p3);
    var (host, p5) :- ReadFixedStr(buf, p4, DC.ConfigStringSize);
    var (port, p6) :- ReadU16(buf, p5, WireOrder);
    var (user, p7) :- ReadFixedStr(buf, p6, DC.ConfigStringSize);
    var (password, p8) :- ReadFixedStr(buf, p7, DC.ConfigStringSize);
    Some(((check, maxAttempt, timeZone, mqtt, host, port, user, password), p8))
  }

  function DecodeSysConfig(buf: seq<byte>, pos: nat): (r: Option<(SysConfigRecord, nat)>)
    ensures r.Some? <==> pos + DC.SysConfigSize <= |buf|
    ensures r.Some? ==> r.value.1 == pos + DC.SysConfigSize
  {
    var ((mdnsName, wifiMode, ssid, password), p1) :- DecodeWifi(buf, pos);
    var ((check, maxAttempt, timeZone, mqtt, host, port, user, mqttPassword), p2) :- DecodeNetwork(buf, p1);
    Some((SysConfigRecord(mdnsName, wifiMode, ssid, password, check, maxAttempt, timeZone,
      mqtt, host, port, user, mqttPassword), p2))
  }

  /** `parse`: the configuration in its packed order, 2287 bytes. */
  function DecodeConfig(buf: seq<byte>, pos: nat): (r: Option<(ConfigRecord, nat)>)
    ensures r.Some? <==> pos + DC.ConfigSize <= |buf|
    ensures r.Some? ==> r.value.1 == pos + DC.ConfigSize
  {
    var (power, p1) :- ReadBool(buf, pos);
    var (sensor, p2) :- DecodeSensor(buf, p1);
    var (control, p3) :- DecodeControl(buf, p2);
    var (pid, p4) :- DecodePid(buf, p3);
    var (nightMode, p5) :- DecodeNightMode(buf, p4);
    var (sysConfig, p6) :- DecodeSysConfig(buf, p5);
    Some((ConfigRecord(power, sensor, control, pid, nightMode, sysConfig), p6))
  }

  /** Offsets of the groups inside the packed configuration. */
  const SensorOffset: nat := 1
  const ControlOffset: nat := 1026
  const PidOffset: nat := 2051
  const NightModeOffset: nat := 2070
  const SysConfigOffset: nat := 2079

  /** The whole decode is the group decoders at their fixed offsets; an unrecognised type
      byte still decodes every later group. */
  lemma DecodeConfigGroups(buf: seq<byte>, pos: nat)
    requires pos + DC.ConfigSize <= |buf|
    ensures var c := DecodeConfig(buf, pos).value.0;
      c.power == (buf[pos] != 0) &&
      Some((c.sensor, pos + ControlOffset)) == DecodeSensor(buf, pos + SensorOffset) &&
      Some((c.control, pos + PidOffset)) == DecodeControl(buf, pos + ControlOffset) &&
      Some((c.pid, pos + NightModeOffset)) == DecodePid(buf, pos + PidOffset) &&
      Some((c.nightMode, pos + SysConfigOffset)) == DecodeNightMode(buf, pos + NightModeOffset) &&
      Some((c.sysConfig, pos + DC.ConfigSize)) == DecodeSysConfig(buf, pos + SysConfigOffset)
  {
  }

  // ---------------------------------------------------------------------
  // The state packet.

  function DecodeHistoryPoints(buf: seq<byte>, pos: nat, n: nat): (r: Option<(seq<HistoryPoint>, nat)>)
    requires pos <= |buf|
    ensures r.Some? <==> pos + HistoryPointSize * n <= |buf|
    ensures r.Some? ==> |r.value.0| == n && r.value.1 == pos + HistoryPointSize * n
  {
    if n == 0 then Some(([], pos))
    else
      var (front, p) :- DecodeHistoryPoints(buf, pos, n - 1);
      var (sensor, p1) :- ReadF32(buf, p, WireOrder);
      var (control, p2) :- ReadF32(buf, p1, WireOrder);
      Some((front + [HistoryPoint(sensor, control)], p2))
  }

  /** parseHistory: u16 count, u16 index, then count pairs of floats, 4 + 8 * count bytes. */
  function DecodeHistory(buf: seq<byte>, pos: nat): (r: Option<(HistoryRecord, nat)>)
    ensures r.Some? <==>
      pos + 4 <= |buf| && pos + 4 + HistoryPointSize * (U16Of(buf[pos..pos + 2], WireOrder) as int) <= |buf|
    ensures r.Some? ==>
      |r.value.0.entries| == r.value.0.count &&
      r.value.1 == pos + 4 + HistoryPointSize * r.value.0.count
  {
    if pos + 4 > |buf| then None
    else
      var count := U16Of(buf[pos..pos + 2], WireOrder);
      var index := U16Of(buf[pos + 2..pos + 4], WireOrder);
      var (entries, p3) :- DecodeHistoryPoints(buf, pos + 4, count as int);
      Some((HistoryRecord(count as int, index as int, entries), p3))
  }

  /** #parseState: the sensor and control readings, then the history. */
  function DecodeState(buf: seq<byte>, pos: nat): (r: Option<(StateRecord, nat)>)
    ensures r.Some? <==> pos + 8 <= |buf| && DecodeHistory(buf, pos + 8).Some?
    ensures r.Some? ==> Some((r.value.0.history, r.value.1)) == DecodeHistory(buf, pos + 8)
  {
    var (sensorValue, p1) :- ReadF32(buf, pos, WireOrder);
    var (controlValue, p2) :- ReadF32(buf, p1, WireOrder);
    var (history, p3) :- DecodeHistory(buf, p2);
    Some((StateRecord(sensorValue, controlValue, history), p3))
  }

  // ---------------------------------------------------------------------
  // The enumeration lists.

  const WifiModeList: seq<ListItem> := [ListItem(0, "AP"), ListItem(1, "STA")]
  const SensorTypeList: seq<ListItem> := [ListItem(0, "Analog"), ListItem(1, "DSX18X")]
  const ControlTypeList: seq<ListItem> := [ListItem(0, "PWM")]

  /** The lists a select can name, as the constructor registers them. */
  function Lists(): map<string, seq<ListItem>> {
    map["wifiMode" := WifiModeList, "sensorType" := SensorTypeList, "controlType" := ControlTypeList]
  }

  function Codes(list: seq<ListItem>): set<nat> {
    set k | 0 <= k < |list| :: list[k].code
  }

  /** The console's lists name exactly the device's sensor and control type codes, and the
      block decoders recognise exactly the listed codes. */
  lemma ListsMatchDevice(data: seq<byte>)
    requires |data| == DC.DataBlockSize
    ensures Codes(SensorTypeList) == {DC.SensorTypeAnalogValue as nat, DC.SensorTypeDsx18x as nat}
    ensures Codes(ControlTypeList) == {DC.ControlTypePwmValue as nat}
    ensures forall t: byte :: (|ParseSensorBlock(t, data)| == 1 <==> t as nat in Codes(SensorTypeList))
    ensures forall t: byte :: (|ParseControlBlock(t, data)| == 1 <==> t as nat in Codes(ControlTypeList))
  {
    assert SensorTypeList[0].code == 0 && SensorTypeList[1].code == 1;
    assert ControlTypeList[0].code == 0;
    assert Codes(SensorTypeList) == {0, 1};
    assert Codes(ControlTypeList) == {0};
  }

  // ---------------------------------------------------------------------
  // What each decoded key is read as.

  /** The parser read behind each key path the console decodes. */
  datatype WireKind = BooleanKind | Uint8Kind | Uint16Kind | Uint32Kind | Float32Kind | FixedStringKind | BinaryKind

  /** The read that `parse`, #parseSensor, #parseControl and #parseState use for a key, keyed by
      the path of the field it is stored under. */
  const DecodedKinds: map<string, WireKind> := map[
    "status.sensor_value" := Float32Kind,
    "status.control_value" := Float32Kind,
    "power" := BooleanKind,
    "sensor.type" := Uint8Kind,
    "sensor.parsed.analog.pin" := Uint8Kind,
    "sensor.parsed.analog.resolution" := Uint8Kind,
    "sensor.parsed.dsx18x.pin" := Uint8Kind,
    "sensor.parsed.dsx18x.resolution" := Uint8Kind,
    "sensor.parsed.dsx18x.parasite" := BooleanKind,
    "control.type" := Uint8Kind,
    "control.parsed.pwm.pin" := Uint8Kind,
    "control.parsed.pwm.period" := Uint16Kind,
    "pid.target" := Float32Kind,
    "pid.p" := Float32Kind,
    "pid.i" := Float32Kind,
    "pid.d" := Float32Kind,
    "pid.interval" := Uint16Kind,
    "pid.reverse" := BooleanKind,
    "nightMode.enabled" := BooleanKind,
    "nightMode.startTime" := Uint32Kind,
    "nightMode.endTime" := Uint32Kind,
    "sysConfig.mdnsName" := FixedStringKind,
    "sysConfig.wifiMode" := Uint8Kind,
    "sysConfig.wifiSsid" := FixedStringKind,
    "sysConfig.wifiPassword" := FixedStringKind,
    "sysConfig.wifiConnectionCheckInterval" := Uint32Kind,
    "sysConfig.wifiMaxConnectionAttemptInterval" := Uint32Kind,
    "sysConfig.timeZone" := Float32Kind,
    "sysConfig.mqtt" := BooleanKind,
    "sysConfig.mqttHost" := FixedStringKind,
    "sysConfig.mqttPort" := Uint16Kind,
    "sysConfig.mqttUser" := FixedStringKind,
    "sysConfig.mqttPassword" := FixedStringKind]

  // ---------------------------------------------------------------------
  // The configuration object.

  class Config {
    var power: Option<bool>
    var sensor: Option<SensorRecord>
    var control: Option<ControlRecord>
    var pid: Option<PidRecord>
    var nightMode: Option<NightModeRecord>
    var sysConfig: Option<SysConfigRecord>
    var status: Option<StateRecord>
    const lists: map<string, seq<ListItem>>

    constructor ()
      ensures power.None? && sensor.None? && control.None? && pid.None?
      ensures nightMode.None? && sysConfig.None? && status.None?
      ensures lists == Lists()
    {
      power := None;
      sensor := None;
      control := None;
      pid := None;
      nightMode := None;
      sysConfig := None;
      status := None;
      lists := Lists();
    }

    /** #parseSensor: rereads the sensor block from its offset 0 with a fresh parser. */
    method ParseSensor()
      requires sensor.Some? && |sensor.value.data| == DC.DataBlockSize
      modifies this
      ensures sensor == Some(old(sensor.value).(parsed := ParseSensorBlock(old(sensor.value.sensorType), old(sensor.value.data))))
      ensures power == old(power) && control == old(control) && pid == old(pid)
      ensures nightMode == old(nightMode) && sysConfig == old(sysConfig) && status == old(status)
    {
      var s := sensor.value;
      var parser := new BinaryParser(s.data, WireOrder);
      var parsed := map[];
      if s.sensorType == 0 {
        var pin := parser.ReadUint8();
        var resolution := parser.ReadUint8();
        parsed := parsed[AnalogKey := AnalogFields(pin.value, resolution.value)];
      } else if s.sensorType == 1 {
        var pin := parser.ReadUint8();
        var resolution := parser.ReadUint8();
        var parasite := parser.ReadBoolean();
        parsed := parsed[Dsx18Key := Dsx18Fields(pin.value, resolution.value, parasite.value)];
      }
      sensor := Some(s.(parsed := parsed));
    }

    /** #parseControl: rereads the control block from its offset 0 with a fresh parser. */
    method ParseControl()
      requires control.Some? && |control.value.data| == DC.DataBlockSize
      modifies this
      ensures control == Some(old(control.value).(parsed := ParseControlBlock(old(control.value.controlType), old(control.value.data))))
      ensures power == old(power) && sensor == old(sensor) && pid == old(pid)
      ensures nightMode == old(nightMode) && sysConfig == old(sysConfig) && status == old(status)
    {
      var c := control.value;
      var parser := new BinaryParser(c.data, WireOrder);
      var parsed := map[];
      if c.controlType == 0 {
        var pin := parser.ReadUint8();
        var period := parser.ReadUint16();
        parsed := parsed[PwmKey := PwmFields(pin.value, period.value)];
      }
      control := Some(c.(parsed := parsed));
    }

    /** `parse`: each group is assigned once all its reads succeed, in packed order; the first
        read that does not fit stops the parse, so a group is replaced exactly when the buffer
        reaches its end. */
    method Parse(parser: BinaryParser)
      requires parser.order == WireOrder
      modifies this, parser
      ensures var b, p := parser.data, old(parser.pos);
        power == (if p + SensorOffset <= |b| then Some(b[p] != 0) else old(power)) &&
        sensor == (if p + ControlOffset <= |b| then Some(DecodeSensor(b, p + SensorOffset).value.0) else old(sensor)) &&
        control == (if p + PidOffset <= |b| then Some(DecodeControl(b, p + ControlOffset).value.0) else old(control)) &&
        pid == (if p + NightModeOffset <= |b| then Some(DecodePid(b, p + PidOffset).value.0) else old(pid)) &&
        nightMode == (if p + SysConfigOffset <= |b| then Some(DecodeNightMode(b, p + NightModeOffset).value.0) else old(nightMode)) &&
        sysConfig == (if p + DC.ConfigSize <= |b| then Some(DecodeSysConfig(b, p + SysConfigOffset).value.0) else old(sysConfig))
      ensures status == old(status)
    {
      var ok := ParseHead(parser);
      if ok {
        ParseTail(parser);
      }
    }

    /** The power flag and the two variant blocks; `ok` when all three were read. */
    method ParseHead(parser: BinaryParser) returns (ok: bool)
      requires parser.order == WireOrder
      modifies this, parser
      ensures var b, p := parser.data, old(parser.pos);
        (ok <==> p + PidOffset <= |b|) && (ok ==> parser.pos == p + PidOffset) &&
        power == (if p + SensorOffset <= |b| then Some(b[p] != 0) else old(power)) &&
        sensor == (if p + ControlOffset <= |b| then Some(DecodeSensor(b, p + SensorOffset).value.0) else old(sensor)) &&
        control == (if p + PidOffset <= |b| then Some(DecodeControl(b, p + ControlOffset).value.0) else old(control))
      ensures pid == old(pid) && nightMode == old(nightMode) && sysConfig == old(sysConfig) && status == old(status)
    {
      ok := false;
      var pw := parser.ReadBoolean();
      if pw.None? {
        return;
      }
      power := pw;
      var s := ParseSensorFields(parser);
      if s.None? {
        return;
      }
      sensor := s;
      ParseSensor();
      var c := ParseControlFields(parser);
      if c.None? {
        return;
      }
      control := c;
      ParseControl();
      ok := true;
    }

    /** The PID, night-mode and system groups that follow the variant blocks. */
    method ParseTail(parser: BinaryParser)
      requires parser.order == WireOrder
      modifies this, parser
      ensures var b, q := parser.data, old(parser.pos);
        pid == (if q + DC.PidConfigSize <= |b| then Some(DecodePid(b, q).value.0) else old(pid)) &&
        nightMode == (if q + DC.PidConfigSize + DC.NightModeConfigSize <= |b|
          then Some(DecodeNightMode(b, q + DC.PidConfigSize).value.0) else old(nightMode)) &&
        sysConfig == (if q + DC.PidConfigSize + DC.NightModeConfigSize + DC.SysConfigSize <= |b|
          then Some(DecodeSysConfig(b, q + DC.PidConfigSize + DC.NightModeConfigSize).value.0) else old(sysConfig))
      ensures power == old(power) && sensor == old(sensor) && control == old(control) && status == old(status)
    {
      ghost var b, q := parser.data, parser.pos;
      var pd := ParsePid(parser);
      if pd.None? {
        assert q + DC.PidConfigSize > |b|;
        return;
      }
      pid := pd;
      assert parser.pos == q + DC.PidConfigSize;
      var nm := ParseNightMode(parser);
      if nm.None? {
        assert q + DC.PidConfigSize + DC.NightModeConfigSize > |b|;
        return;
      }
      nightMode := nm;
      var sc := ParseSysConfig(parser);
      if sc.None? {
        assert q + DC.PidConfigSize + DC.NightModeConfigSize + DC.SysConfigSize > |b|;
        return;
      }
      sysConfig := sc;
    }

    /** parseHistory: the count and index, then `count` entries read in a loop. */
    method ParseHistory(parser: BinaryParser) returns (r: Option<HistoryRecord>)
      requires parser.order == WireOrder
      modifies parser
      ensures r == ValueOf(DecodeHistory(parser.data, old(parser.pos)))
      ensures r.Some? ==> parser.pos == DecodeHistory(parser.data, old(parser.pos)).value.1
    {
      var start := parser.pos;
      var count := parser.ReadUint16();
      var index := parser.ReadUint16();
      if count.None? || index.None? {
        return None;
      }
      var entries := ParseHistoryPoints(parser, count.value as int);
      if entries.None? {
        return None;
      }
      r := Some(HistoryRecord(count.value as int, index.value as int, entries.value));
    }

    /** #parseState: the two readings, then the history. */
    method ParseState(parser: BinaryParser) returns (r: Option<StateRecord>)
      requires parser.order == WireOrder
      modifies parser
      ensures r == ValueOf(DecodeState(parser.data, old(parser.pos)))
    {
      var sensorValue := parser.ReadFloat32();
      var controlValue := parser.ReadFloat32();
      if sensorValue.None? || controlValue.None? {
        return None;
      }
      var history := ParseHistory(parser);
      if history.None? {
        return None;
      }
      r := Some(StateRecord(sensorValue.value, controlValue.value, history.value));
    }
  }

  // ---------------------------------------------------------------------
  // One group each, as `parse` reads them.

  method ParseSensorFields(parser: BinaryParser) returns (r: Option<SensorRecord>)
    modifies parser
    ensures var want := DecodeSensor(parser.data, old(parser.pos));
      (r.Some? <==> want.Some?) &&
      (r.Some? ==> r.value == want.value.0.(parsed := map[]) && parser.pos == want.value.1)
  {
    var t := parser.ReadUint8();
    var data := parser.ReadBinary(DC.DataBlockSize);
    if t.None? || data.None? {
      return None;
    }
    r := Some(SensorRecord(t.value, data.value, map[]));
  }

  method ParseControlFields(parser: BinaryParser) returns (r: Option<ControlRecord>)
    modifies parser
    ensures var want := DecodeControl(parser.data, old(parser.pos));
      (r.Some? <==> want.Some?) &&
      (r.Some? ==> r.value == want.value.0.(parsed := map[]) && parser.pos == want.value.1)
  {
    var t := parser.ReadUint8();
    var data := parser.ReadBinary(DC.DataBlockSize);
    if t.None? || data.None? {
      return None;
    }
    r := Some(ControlRecord(t.value, data.value, map[]));
  }

  method ParsePid(parser: BinaryParser) returns (r: Option<PidRecord>)
    requires parser.order == WireOrder
    modifies parser
    ensures r == ValueOf(DecodePid(parser.data, old(parser.pos)))
    ensures r.Some? ==> parser.pos == old(parser.pos) + DC.PidConfigSize
  {
    var target := parser.ReadFloat32();
    var kp := parser.ReadFloat32();
    var ki := parser.ReadFloat32();
    var kd := parser.ReadFloat32();
    var interval := parser.ReadUint16();
    var reverse := parser.ReadBoolean();
    if target.None? || kp.None? || ki.None? || kd.None? || interval.None? || reverse.None? {
      return None;
    }
    r := Some(PidRecord(target.value, kp.value, ki.value, kd.value, interval.value, reverse.value));
  }

  method ParseNightMode(parser: BinaryParser) returns (r: Option<NightModeRecord>)
    requires parser.order == WireOrder
    modifies parser
    ensures r == ValueOf(DecodeNightMode(parser.data, old(parser.pos)))
    ensures r.Some? ==> parser.pos == old(parser.pos) + DC.NightModeConfigSize
  {
    var enabled := parser.ReadBoolean();
    var startTime := parser.ReadUint32();
    var endTime := parser.ReadUint32();
    if enabled.None? || startTime.None? || endTime.None? {
      return None;
    }
    r := Some(NightModeRecord(enabled.value, startTime.value, endTime.value));
  }

  method ParseWifi(parser: BinaryParser) returns (r: Option<(seq<byte>, byte, seq<byte>, seq<byte>)>)
    modifies parser
    ensures r == ValueOf(DecodeWifi(parser.data, old(parser.pos)))
    ensures r.Some? ==> parser.pos == old(parser.pos) + 97
  {
    var mdnsName := parser.ReadFixedString(DC.ConfigStringSize);
    var wifiMode := parser.ReadUint8();
    var ssid := parser.ReadFixedString(DC.ConfigStringSize);
    var password := parser.ReadFixedString(DC.ConfigStringSize);
    if mdnsName.None? || wifiMode.None? || ssid.None? || password.None? {
      return None;
    }
    r := Some((mdnsName.value, wifiMode.value, ssid.value, password.value));
  }

  method ParseNetwork(parser: BinaryParser) returns (r: Option<(bv32, bv32, f32, bool, seq<byte>, bv16, seq<byte>, seq<byte>)>)
    requires parser.order == WireOrder
    modifies parser
    ensures r == ValueOf(DecodeNetwork(parser.data, old(parser.pos)))
    ensures r.Some? ==> parser.pos == old(parser.pos) + 111
  {
    var check := parser.ReadUint32();
    var maxAttempt := parser.ReadUint32();
    var timeZone := parser.ReadFloat32();
    var mqtt := parser.ReadBoolean();
    var host := parser.ReadFixedString(DC.ConfigStringSize);
    var port := parser.ReadUint16();
    var user := parser.ReadFixedString(DC.ConfigStringSize);
    var password := parser.ReadFixedString(DC.ConfigStringSize);
    if check.None? || maxAttempt.None? || timeZone.None? || mqtt.None? {
      return None;
    }
    if host.None? || port.None? || user.None? || password.None? {
      return None;
    }
    r := Some((check.value, maxAttempt.value, timeZone.value, mqtt.value, host.value, port.value, user.value, password.value));
  }

  method ParseSysConfig(parser: BinaryParser) returns (r: Option<SysConfigRecord>)
    requires parser.order == WireOrder
    modifies parser
    ensures r == ValueOf(DecodeSysConfig(parser.data, old(parser.pos)))
    ensures r.Some? ==> parser.pos == old(parser.pos) + DC.SysConfigSize
  {
    var wifi := ParseWifi(parser);
    if wifi.None? {
      return None;
    }
    var network := ParseNetwork(parser);
    if network.None? {
      return None;
    }
    var (mdnsName, wifiMode, ssid, password) := wifi.value;
    var (check, maxAttempt, timeZone, mqtt, host, port, user, mqttPassword) := network.value;
    r := Some(SysConfigRecord(mdnsName, wifiMode, ssid, password, check, maxAttempt, timeZone,
      mqtt, host, port, user, mqttPassword));
  }

  /** The entry loop of parseHistory: `n` pairs of floats, stopping at the first that does not fit. */
  method ParseHistoryPoints(parser: BinaryParser, n: nat) returns (r: Option<seq<HistoryPoint>>)
    requires parser.order == WireOrder && parser.pos <= |parser.data|
    modifies parser
    ensures var want := DecodeHistoryPoints(parser.data, old(parser.pos), n);
      (r.Some? <==> want.Some?) && (r.Some? ==> r.value == want.value.0 && parser.pos == want.value.1)
  {
    var first := parser.pos;
    var entries := [];
    var i := 0;
    while i < n
      invariant 0 <= i <= n
      invariant parser.pos == first + HistoryPointSize * i <= |parser.data|
      invariant DecodeHistoryPoints(parser.data, first, i) == Some((entries, parser.pos))
    {
      var point := ParseHistoryPoint(parser);
      if point.None? {
        return None;
      }
      entries := entries + [point.value];
      i := i + 1;
    }
    r := Some(entries);
  }

  method ParseHistoryPoint(parser: BinaryParser) returns (r: Option<HistoryPoint>)
    requires parser.order == WireOrder
    modifies parser
    ensures r.Some? <==> old(parser.pos) + HistoryPointSize <= |parser.data|
    ensures r.Some? ==>
      r == Some(HistoryPoint(ReadF32(parser.data, old(parser.pos), WireOrder).value.0,
                             ReadF32(parser.data, old(parser.pos) + F32Width, WireOrder).value.0)) &&
      parser.pos == old(parser.pos) + HistoryPointSize
  {
    if parser.pos + HistoryPointSize > |parser.data| {
      return None;
    }
    var sensor := parser.ReadFloat32();
    var control := parser.ReadFloat32();
    r := Some(HistoryPoint(sensor.value, control.value));
  }
}
