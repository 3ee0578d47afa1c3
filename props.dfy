/**
 * The console's declarative property table and its float formatter.
 *
 * Each entry names the key path it edits, its widget type, the wire kind
 * it is sent as, the packet type that carries it, and optionally a list of
 * choices, the key of the `skip` entry whose presence makes it visible,
 * numeric bounds, a maximum length, and whether `fix_float` formats it.
 * Titles, labels and display converters are presentation only and are not
 * part of a `Prop`.
 */
module Props {
  import opened Wrappers
  import P = Protocol
  import DC = DeviceConfig
  import CC = ConsoleConfig

  datatype Prop = Prop(
    key: Option<string>,
    widget: string,
    kind: Option<CC.WireKind>,
    cmd: Option<P.PacketType>,
    list: Option<string>,
    visibleIf: Option<string>,
    min: Option<int>,
    limit: Option<int>,
    maxLength: Option<nat>,
    fixFloat: bool)

  datatype Section = Section(key: string, props: seq<Prop>)

  function Field(key: string, widget: string, kind: CC.WireKind, cmd: P.PacketType): Prop {
    Prop(Some(key), widget, Some(kind), Some(cmd), None, None, None, None, None, false)
  }

  function Skip(key: string): Prop {
    Prop(Some(key), "skip", None, None, None, None, None, None, None, false)
  }

  function Button(key: string): Prop {
    Prop(Some(key), "button", None, None, None, None, None, None, None, false)
  }

  const Title: Prop := Prop(None, "title", None, None, None, None, None, None, None, false)

  function StringField(key: string, widget: string, cmd: P.PacketType): Prop {
    Field(key, widget, CC.FixedStringKind, cmd).(maxLength := Some(32))
  }

  // ---------------------------------------------------------------------
  // The table, section by section.

  function StatusSection(): Section {
    Section("status", [
      Field("status.sensor_value", "label", CC.Float32Kind, P.SensorValue),
      Field("status.control_value", "label", CC.Float32Kind, P.ControlValue),
      Field("status.history", "chart", CC.BinaryKind, P.HistoryData)])
  }

  function GeneralSection(): Section {
    Section("general", [Field("power", "trigger", CC.BooleanKind, P.Power)])
  }

  function NightModeSection(): Section {
    Section("night_mode", [
      Field("nightMode.enabled", "trigger", CC.BooleanKind, P.NightModeEnabled),
      Field("nightMode.startTime", "time", CC.Uint32Kind, P.NightModeStart),
      Field("nightMode.endTime", "time", CC.Uint32Kind, P.NightModeEnd)])
  }

  function SensorSection(): Section {
    Section("sensor", [
      Field("sensor.type", "select", CC.Uint8Kind, P.SensorType).(list := Some("sensorType")),
      Skip("sensor.parsed.analog"),
      Field("sensor.parsed.analog.pin", "int", CC.Uint8Kind, P.AnalogSensorPin)
        .(visibleIf := Some("sensor.parsed.analog")),
      Field("sensor.parsed.analog.resolution", "int", CC.Uint8Kind, P.AnalogSensorResolution)
        .(min := Some(8), limit := Some(14), visibleIf := Some("sensor.parsed.analog")),
      Skip("sensor.parsed.dsx18x"),
      Field("sensor.parsed.dsx18x.pin", "int", CC.Uint8Kind, P.Dsx18SensorPin)
        .(visibleIf := Some("sensor.parsed.dsx18x")),
      Field("sensor.parsed.dsx18x.resolution", "int", CC.Uint8Kind, P.Dsx18SensorResolution)
        .(min := Some(9), limit := Some(12), visibleIf := Some("sensor.parsed.dsx18x")),
      Field("sensor.parsed.dsx18x.parasite", "trigger", CC.BooleanKind, P.Dsx18SensorParasite)
        .(visibleIf := Some("sensor.parsed.dsx18x")),
      Title,
      Button("apply_control_config")])
  }

  function ControlSection(): Section {
    Section("control", [
      Field("control.type", "select", CC.Uint8Kind, P.ControlType).(list := Some("controlType")),
      Skip("control.parsed.pwm"),
      Field("control.parsed.pwm.pin", "int", CC.Uint8Kind, P.PwmControlPin)
        .(visibleIf := Some("control.parsed.pwm")),
      Field("control.parsed.pwm.period", "int", CC.Uint16Kind, P.PwmControlPeriod)
        .(visibleIf := Some("control.parsed.pwm")),
      Title,
      Button("apply_sensor_config")])
  }

  function PidSection(): Section {
    Section("pid", [
      Field("pid.target", "float", CC.Float32Kind, P.PidTarget),
      Field("pid.interval", "int", CC.Uint16Kind, P.PidInterval),
      Title,
      Field("pid.p", "float", CC.Float32Kind, P.PidP).(fixFloat := true),
      Field("pid.i", "float", CC.Float32Kind, P.PidI).(fixFloat := true),
      Field("pid.d", "float", CC.Float32Kind, P.PidD).(fixFloat := true),
      Title,
      Field("pid.reverse", "trigger", CC.BooleanKind, P.PidReverse)])
  }

  function SystemSection(): Section {
    Section("system", [
      StringField("sysConfig.mdnsName", "text", P.SysConfigMdnsName),
      Title,
      Field("sysConfig.wifiMode", "select", CC.Uint8Kind, P.SysConfigWifiMode).(list := Some("wifiMode")),
      StringField("sysConfig.wifiSsid", "text", P.SysConfigWifiSsid),
      StringField("sysConfig.wifiPassword", "password", P.SysConfigWifiPassword),
      Title,
      Field("sysConfig.wifiConnectionCheckInterval", "int", CC.Uint32Kind, P.SysConfigWifiConnectionCheckInterval),
      Field("sysConfig.wifiMaxConnectionAttemptInterval", "int", CC.Uint32Kind, P.SysConfigWifiMaxConnectionAttemptInterval),
      Title,
      Field("sysConfig.timeZone", "float", CC.Float32Kind, P.SysConfigTimeZone),
      Title,
      Field("sysConfig.mqtt", "trigger", CC.BooleanKind, P.SysConfigMqttEnabled),
      StringField("sysConfig.mqttHost", "text", P.SysConfigMqttHost),
      Field("sysConfig.mqttPort", "int", CC.Uint16Kind, P.SysConfigMqttPort),
      StringField("sysConfig.mqttUser", "text", P.SysConfigMqttUser),
      StringField("sysConfig.mqttPassword", "password", P.SysConfigMqttPassword),
      Title,
      Button("apply_sys_config")])
  }

  function PropertyConfig(): seq<Section> {
    [StatusSection(), GeneralSection(), NightModeSection(), SensorSection(),
     ControlSection(), PidSection(), SystemSection()]
  }

  /** All entries of all sections, in table order. */
  function Flatten(ss: seq<Section>): seq<Prop> {
    if |ss| == 0 then [] else Flatten(ss[..|ss| - 1]) + ss[|ss| - 1].props
  }

  // ---------------------------------------------------------------------
  // Unique commands.

  /** The packet types of a run of entries, absent for titles, skips and buttons. */
  function Cmds(props: seq<Prop>): (r: seq<Option<P.PacketType>>)
    ensures |r| == |props| && forall i | 0 <= i < |props| :: r[i] == props[i].cmd
  {
    seq(|props|, i requires 0 <= i < |props| => props[i].cmd)
  }

  ghost predicate Distinct(cs: seq<Option<P.PacketType>>) {
    forall i, j | 0 <= i < j < |cs| :: cs[i].Some? ==> cs[i] != cs[j]
  }

  ghost predicate CmdsDistinct(props: seq<Prop>) {
    forall i, j | 0 <= i < j < |props| :: props[i].cmd.Some? ==> props[i].cmd != props[j].cmd
  }

  /** The console section a packet type is edited or shown in. */
  function SectionOf(t: P.PacketType): nat {
    match t
    case SensorValue => 0
    case ControlValue => 0
    case HistoryData => 0
    case Power => 1
    case NightModeEnabled => 2
    case NightModeStart => 2
    case NightModeEnd => 2
    case SensorType => 3
    case AnalogSensorPin => 3
    case AnalogSensorResolution => 3
    case Dsx18SensorPin => 3
    case Dsx18SensorResolution => 3
    case Dsx18SensorParasite => 3
    case ControlType => 4
    case PwmControlPin => 4
    case PwmControlPeriod => 4
    case PidTarget => 5
    case PidP => 5
    case PidI => 5
    case PidD => 5
    case PidInterval => 5
    case PidReverse => 5
    case GetConfig => 7
    case GetState => 7
    case Restart => 7
    case _ => 6
  }

  lemma DistinctCmds(props: seq<Prop>)
    requires Distinct(Cmds(props))
    ensures CmdsDistinct(props)
  {
    var cs := Cmds(props);
    forall i, j | 0 <= i < j < |props| && props[i].cmd.Some?
      ensures props[i].cmd != props[j].cmd
    {
      assert cs[i] == props[i].cmd && cs[j] == props[j].cmd;
    }
  }

  ghost predicate InSection(props: seq<Prop>, g: nat) {
    forall i | 0 <= i < |props| :: props[i].cmd.Some? ==> SectionOf(props[i].cmd.value) == g
  }

  lemma CmdsInSection(props: seq<Prop>, g: nat)
    requires forall i | 0 <= i < |Cmds(props)| :: Cmds(props)[i].Some? ==> SectionOf(Cmds(props)[i].value) == g
    ensures InSection(props, g)
  {
    var cs := Cmds(props);
    forall i | 0 <= i < |props| && props[i].cmd.Some?
      ensures SectionOf(props[i].cmd.value) == g
    {
      assert cs[i] == props[i].cmd;
    }
  }

  ghost predicate SectionsBelow(props: seq<Prop>, g: nat) {
    forall i | 0 <= i < |props| :: props[i].cmd.Some? ==> SectionOf(props[i].cmd.value) < g
  }

  lemma {:induction false} FlattenDistinct(ss: seq<Section>)
    requires forall k | 0 <= k < |ss| :: CmdsDistinct(ss[k].props) && InSection(ss[k].props, k)
    ensures CmdsDistinct(Flatten(ss)) && SectionsBelow(Flatten(ss), |ss|)
  {
    if |ss| > 0 {
      var front := ss[..|ss| - 1];
      var a, b := Flatten(front), ss[|ss| - 1].props;
      FlattenDistinct(front);
      var t := a + b;
      forall i, j | 0 <= i < j < |t| && t[i].cmd.Some?
        ensures t[i].cmd != t[j].cmd
      {
        if j < |a| {
          assert t[i] == a[i] && t[j] == a[j];
        } else if i >= |a| {
          assert t[i] == b[i - |a|] && t[j] == b[j - |a|];
        } else {
          assert t[i] == a[i] && t[j] == b[j - |a|];
          assert SectionOf(t[i].cmd.value) < |ss| - 1;
        }
      }
      forall i | 0 <= i < |t| && t[i].cmd.Some?
        ensures SectionOf(t[i].cmd.value) < |ss|
      {
        if i < |a| {
          assert t[i] == a[i];
        } else {
          assert t[i] == b[i - |a|];
        }
      }
    }
  }

  /** A section whose packet types are a listed run that is distinct and within section `g`. */
  lemma ListedCmds(props: seq<Prop>, cs: seq<Option<P.PacketType>>, g: nat)
    requires Cmds(props) == cs && Distinct(cs)
    requires forall i | 0 <= i < |cs| :: cs[i].Some? ==> SectionOf(cs[i].value) == g
    ensures CmdsDistinct(props) && InSection(props, g)
  {
    DistinctCmds(props);
    CmdsInSection(props, g);
  }

  lemma GeneralCmds()
    ensures CmdsDistinct(GeneralSection().props) && InSection(GeneralSection().props, 1)
  {
  }

  const StatusCmdList: seq<Option<P.PacketType>> := [Some(P.SensorValue), Some(P.ControlValue), Some(P.HistoryData)]

  lemma StatusCmdsListed()
    ensures Cmds(StatusSection().props) == StatusCmdList
  {
  }

  lemma StatusCmdListDistinct()
    ensures Distinct(StatusCmdList)
  {
  }

  lemma StatusCmdListInSection()
    ensures forall i | 0 <= i < |StatusCmdList| :: StatusCmdList[i].Some? ==> SectionOf(StatusCmdList[i].value) == 0
  {
  }

  lemma StatusCmds()
    ensures CmdsDistinct(StatusSection().props) && InSection(StatusSection().props, 0)
  {
    StatusCmdsListed();
    StatusCmdListDistinct();
    StatusCmdListInSection();
    ListedCmds(StatusSection().props, StatusCmdList, 0);
  }

  const NightModeCmdList: seq<Option<P.PacketType>> := [Some(P.NightModeEnabled), Some(P.NightModeStart), Some(P.NightModeEnd)]

  lemma NightModeCmdsListed()
    ensures Cmds(NightModeSection().props) == NightModeCmdList
  {
  }

  lemma NightModeCmdListDistinct()
    ensures Distinct(NightModeCmdList)
  {
  }

  lemma NightModeCmdListInSection()
    ensures forall i | 0 <= i < |NightModeCmdList| :: NightModeCmdList[i].Some? ==> SectionOf(NightModeCmdList[i].value) == 2
  {
  }

  lemma NightModeCmds()
    ensures CmdsDistinct(NightModeSection().props) && InSection(NightModeSection().props, 2)
  {
    NightModeCmdsListed();
    NightModeCmdListDistinct();
    NightModeCmdListInSection();
    ListedCmds(NightModeSection().props, NightModeCmdList, 2);
  }

  const SensorCmdList: seq<Option<P.PacketType>> := [
    Some(P.SensorType), None, Some(P.AnalogSensorPin), Some(P.AnalogSensorResolution), None,
    Some(P.Dsx18SensorPin), Some(P.Dsx18SensorResolution), Some(P.Dsx18SensorParasite), None, None]

  lemma SensorCmdsListed()
    ensures Cmds(SensorSection().props) == SensorCmdList
  {
  }

  lemma SensorCmdListDistinct()
    ensures Distinct(SensorCmdList)
  {
  }

  lemma SensorCmdListInSection()
    ensures forall i | 0 <= i < |SensorCmdList| :: SensorCmdList[i].Some? ==> SectionOf(SensorCmdList[i].value) == 3
  {
  }

  lemma SensorCmds()
    ensures CmdsDistinct(SensorSection().props) && InSection(SensorSection().props, 3)
  {
    SensorCmdsListed();
    SensorCmdListDistinct();
    SensorCmdListInSection();
    ListedCmds(SensorSection().props, SensorCmdList, 3);
  }

  const ControlCmdList: seq<Option<P.PacketType>> := [Some(P.ControlType), None, Some(P.PwmControlPin), Some(P.PwmControlPeriod), None, None]

  lemma ControlCmdsListed()
    ensures Cmds(ControlSection().props) == ControlCmdList
  {
  }

  lemma ControlCmdListDistinct()
    ensures Distinct(ControlCmdList)
  {
  }

  lemma ControlCmdListInSection()
    ensures forall i | 0 <= i < |ControlCmdList| :: ControlCmdList[i].Some? ==> SectionOf(ControlCmdList[i].value) == 4
  {
  }

  lemma ControlCmds()
    ensures CmdsDistinct(ControlSection().props) && InSection(ControlSection().props, 4)
  {
    ControlCmdsListed();
    ControlCmdListDistinct();
    ControlCmdListInSection();
    ListedCmds(ControlSection().props, ControlCmdList, 4);
  }

  const PidCmdList: seq<Option<P.PacketType>> := [
    Some(P.PidTarget), Some(P.PidInterval), None, Some(P.PidP), Some(P.PidI), Some(P.PidD), None,
    Some(P.PidReverse)]

  lemma PidCmdsListed()
    ensures Cmds(PidSection().props) == PidCmdList
  {
  }

  lemma PidCmdListDistinct()
    ensures Distinct(PidCmdList)
  {
  }

  lemma PidCmdListInSection()
    ensures forall i | 0 <= i < |PidCmdList| :: PidCmdList[i].Some? ==> SectionOf(PidCmdList[i].value) == 5
  {
  }

  lemma PidCmds()
    ensures CmdsDistinct(PidSection().props) && InSection(PidSection().props, 5)
  {
    PidCmdsListed();
    PidCmdListDistinct();
    PidCmdListInSection();
    ListedCmds(PidSection().props, PidCmdList, 5);
  }

  const SystemCmdList: seq<Option<P.PacketType>> := [
    Some(P.SysConfigMdnsName), None, Some(P.SysConfigWifiMode), Some(P.SysConfigWifiSsid),
    Some(P.SysConfigWifiPassword), None, Some(P.SysConfigWifiConnectionCheckInterval),
    Some(P.SysConfigWifiMaxConnectionAttemptInterval), None, Some(P.SysConfigTimeZone), None,
    Some(P.SysConfigMqttEnabled), Some(P.SysConfigMqttHost), Some(P.SysConfigMqttPort),
    Some(P.SysConfigMqttUser), Some(P.SysConfigMqttPassword), None, None]

  lemma SystemCmdsListed()
    ensures Cmds(SystemSection().props) == SystemCmdList
  {
  }

  lemma SystemCmdListDistinct()
    ensures Distinct(SystemCmdList)
  {
  }

  lemma SystemCmdListInSection()
    ensures forall i | 0 <= i < |SystemCmdList| :: SystemCmdList[i].Some? ==> SectionOf(SystemCmdList[i].value) == 6
  {
  }

  lemma SystemCmds()
    ensures CmdsDistinct(SystemSection().props) && InSection(SystemSection().props, 6)
  {
    SystemCmdsListed();
    SystemCmdListDistinct();
    SystemCmdListInSection();
    ListedCmds(SystemSection().props, SystemCmdList, 6);
  }

  /** No two entries of the whole table send the same packet type. */
  lemma PropertyCmdsDistinct()
    ensures CmdsDistinct(Flatten(PropertyConfig()))
  {
    StatusCmds();
    GeneralCmds();
    NightModeCmds();
    SensorCmds();
    ControlCmds();
    PidCmds();
    SystemCmds();
    FlattenDistinct(PropertyConfig());
  }

  // ---------------------------------------------------------------------
  // Per-entry integrity: bounds, string lengths, lists and wire kinds.

  /** An entry's bounds are ordered, a fixed string is bounded by the 32-byte slot the device
      stores it in, a list names one the console declares, and a kind other than Binary is the
      read the decoder performs for that key. */
  ghost predicate EntryConsistent(p: Prop) {
    (p.min.Some? && p.limit.Some? ==> p.min.value <= p.limit.value) &&
    (p.kind == Some(CC.FixedStringKind) ==> p.maxLength == Some(DC.ConfigStringSize)) &&
    (p.list.Some? ==> p.list.value in CC.Lists()) &&
    (p.key.Some? && p.kind.Some? && p.kind != Some(CC.BinaryKind) ==>
      p.key.value in CC.DecodedKinds && CC.DecodedKinds[p.key.value] == p.kind.value)
  }

  ghost predicate AllConsistent(props: seq<Prop>) {
    forall i | 0 <= i < |props| :: EntryConsistent(props[i])
  }

  lemma {:induction false} FlattenConsistent(ss: seq<Section>)
    requires forall k | 0 <= k < |ss| :: AllConsistent(ss[k].props)
    ensures AllConsistent(Flatten(ss))
  {
    if |ss| > 0 {
      var front := ss[..|ss| - 1];
      FlattenConsistent(front);
      var a, b := Flatten(front), ss[|ss| - 1].props;
      forall i | 0 <= i < |a + b|
        ensures EntryConsistent((a + b)[i])
      {
        if i < |a| {
          assert (a + b)[i] == a[i];
        } else {
          assert (a + b)[i] == b[i - |a|];
        }
      }
    }
  }

  lemma GeneralConsistent()
    ensures AllConsistent(GeneralSection().props)
  {
  }

  lemma StatusEntry0()
    ensures EntryConsistent(StatusSection().props[0])
  {
  }

  lemma StatusEntry1()
    ensures EntryConsistent(StatusSection().props[1])
  {
  }

  lemma StatusEntry2()
    ensures EntryConsistent(StatusSection().props[2])
  {
  }

  lemma StatusConsistent()
    ensures AllConsistent(StatusSection().props)
  {
    var t := StatusSection().props;
    forall i | 0 <= i < |t|
      ensures EntryConsistent(t[i])
    {
      if i == 0 {
        StatusEntry0();
      } else if i == 1 {
        StatusEntry1();
      } else {
        StatusEntry2();
      }
    }
  }

  lemma NightModeEntry0()
    ensures EntryConsistent(NightModeSection().props[0])
  {
  }

  lemma NightModeEntry1()
    ensures EntryConsistent(NightModeSection().props[1])
  {
  }

  lemma NightModeEntry2()
    ensures EntryConsistent(NightModeSection().props[2])
  {
  }

  lemma NightModeConsistent()
    ensures AllConsistent(NightModeSection().props)
  {
    var t := NightModeSection().props;
    forall i | 0 <= i < |t|
      ensures EntryConsistent(t[i])
    {
      if i == 0 {
        NightModeEntry0();
      } else if i == 1 {
        NightModeEntry1();
      } else {
        NightModeEntry2();
      }
    }
  }

  lemma SensorEntry0()
    ensures EntryConsistent(SensorSection().props[0])
  {
  }

  lemma SensorEntry2()
    ensures EntryConsistent(SensorSection().props[2])
  {
  }

  lemma SensorEntry3()
    ensures EntryConsistent(SensorSection().props[3])
  {
  }

  lemma SensorEntry5()
    ensures EntryConsistent(SensorSection().props[5])
  {
  }

  lemma SensorEntry6()
    ensures EntryConsistent(SensorSection().props[6])
  {
  }

  lemma SensorEntry7()
    ensures EntryConsistent(SensorSection().props[7])
  {
  }

  lemma SensorConsistent()
    ensures AllConsistent(SensorSection().props)
  {
    var t := SensorSection().props;
    forall i | 0 <= i < |t|
      ensures EntryConsistent(t[i])
    {
      if i == 0 {
        SensorEntry0();
      } else if i == 1 {
      } else if i == 2 {
        SensorEntry2();
      } else if i == 3 {
        SensorEntry3();
      } else if i == 4 {
      } else if i == 5 {
        SensorEntry5();
      } else if i == 6 {
        SensorEntry6();
      } else if i == 7 {
        SensorEntry7();
      } else if i == 8 {
      } else {
      }
    }
  }

  lemma ControlEntry0()
    ensures EntryConsistent(ControlSection().props[0])
  {
  }

  lemma ControlEntry2()
    ensures EntryConsistent(ControlSection().props[2])
  {
  }

  lemma ControlEntry3()
    ensures EntryConsistent(ControlSection().props[3])
  {
  }

  lemma ControlConsistent()
    ensures AllConsistent(ControlSection().props)
  {
    var t := ControlSection().props;
    forall i | 0 <= i < |t|
      ensures EntryConsistent(t[i])
    {
      if i == 0 {
        ControlEntry0();
      } else if i == 1 {
      } else if i == 2 {
        ControlEntry2();
      } else if i == 3 {
        ControlEntry3();
      } else if i == 4 {
      } else {
      }
    }
  }

  lemma PidEntry0()
    ensures EntryConsistent(PidSection().props[0])
  {
  }

  lemma PidEntry1()
    ensures EntryConsistent(PidSection().props[1])
  {
  }

  lemma PidEntry3()
    ensures EntryConsistent(PidSection().props[3])
  {
  }

  lemma PidEntry4()
    ensures EntryConsistent(PidSection().props[4])
  {
  }

  lemma PidEntry5()
    ensures EntryConsistent(PidSection().props[5])
  {
  }

  lemma PidEntry7()
    ensures EntryConsistent(PidSection().props[7])
  {
  }

  lemma PidConsistent()
    ensures AllConsistent(PidSection().props)
  {
    var t := PidSection().props;
    forall i | 0 <= i < |t|
      ensures EntryConsistent(t[i])
    {
      if i == 0 {
        PidEntry0();
      } else if i == 1 {
        PidEntry1();
      } else if i == 2 {
      } else if i == 3 {
        PidEntry3();
      } else if i == 4 {
        PidEntry4();
      } else if i == 5 {
        PidEntry5();
      } else if i == 6 {
      } else {
        PidEntry7();
      }
    }
  }

  lemma SystemEntry0()
    ensures EntryConsistent(SystemSection().props[0])
  {
  }

  lemma SystemEntry2()
    ensures EntryConsistent(SystemSection().props[2])
  {
  }

  lemma SystemEntry3()
    ensures EntryConsistent(SystemSection().props[3])
  {
  }

  lemma SystemEntry4()
    ensures EntryConsistent(SystemSection().props[4])
  {
  }

  lemma SystemEntry6()
    ensures EntryConsistent(SystemSection().props[6])
  {
  }

  lemma SystemEntry7()
    ensures EntryConsistent(SystemSection().props[7])
  {
  }

  lemma SystemEntry9()
    ensures EntryConsistent(SystemSection().props[9])
  {
  }

  lemma SystemEntry11()
    ensures EntryConsistent(SystemSection().props[11])
  {
  }

  lemma SystemEntry12()
    ensures EntryConsistent(SystemSection().props[12])
  {
  }

  lemma SystemEntry13()
    ensures EntryConsistent(SystemSection().props[13])
  {
  }

  lemma SystemEntry14()
    ensures EntryConsistent(SystemSection().props[14])
  {
  }

  lemma SystemEntry15()
    ensures EntryConsistent(SystemSection().props[15])
  {
  }

  lemma SystemConsistent()
    ensures AllConsistent(SystemSection().props)
  {
    var t := SystemSection().props;
    forall i | 0 <= i < |t|
      ensures EntryConsistent(t[i])
    {
      if i == 0 {
        SystemEntry0();
      } else if i == 1 {
      } else if i == 2 {
        SystemEntry2();
      } else if i == 3 {
        SystemEntry3();
      } else if i == 4 {
        SystemEntry4();
      } else if i == 5 {
      } else if i == 6 {
        SystemEntry6();
      } else if i == 7 {
        SystemEntry7();
      } else if i == 8 {
      } else if i == 9 {
        SystemEntry9();
      } else if i == 10 {
      } else if i == 11 {
        SystemEntry11();
      } else if i == 12 {
        SystemEntry12();
      } else if i == 13 {
        SystemEntry13();
      } else if i == 14 {
        SystemEntry14();
      } else if i == 15 {
        SystemEntry15();
      } else if i == 16 {
      } else {
      }
    }
  }

  /** Every entry of the table is consistent with the decoder and the device's string size. */
  lemma PropertyConfigConsistent()
    ensures AllConsistent(Flatten(PropertyConfig()))
  {
    StatusConsistent();
    GeneralConsistent();
    NightModeConsistent();
    SensorConsistent();
    ControlConsistent();
    PidConsistent();
    SystemConsistent();
    FlattenConsistent(PropertyConfig());
  }

  /** The two bounded entries: analog resolution 8..14 and DS18 resolution 9..12. */
  lemma ResolutionBounds()
    ensures SensorSection().props[3].key == Some("sensor.parsed.analog.resolution")
    ensures SensorSection().props[3].min == Some(8) && SensorSection().props[3].limit == Some(14)
    ensures SensorSection().props[6].key == Some("sensor.parsed.dsx18x.resolution")
    ensures SensorSection().props[6].min == Some(9) && SensorSection().props[6].limit == Some(12)
  {
  }

  // ---------------------------------------------------------------------
  // Visibility references.

  /** Every `visibleIf` names a `skip` entry of the same section. */
  ghost predicate VisibilityResolves(props: seq<Prop>) {
    forall i | 0 <= i < |props| && props[i].visibleIf.Some? ::
      exists j :: 0 <= j < |props| && props[j].key == props[i].visibleIf && props[j].widget == "skip"
  }

  lemma SensorVisibility()
    ensures VisibilityResolves(SensorSection().props)
  {
    var t := SensorSection().props;
    forall i | 0 <= i < |t| && t[i].visibleIf.Some?
      ensures exists j :: 0 <= j < |t| && t[j].key == t[i].visibleIf && t[j].widget == "skip"
    {
      if i < 4 {
        assert t[1].key == t[i].visibleIf && t[1].widget == "skip";
      } else {
        assert t[4].key == t[i].visibleIf && t[4].widget == "skip";
      }
    }
  }

  lemma ControlVisibility()
    ensures VisibilityResolves(ControlSection().props)
  {
    var t := ControlSection().props;
    assert t[1].key == Some("control.parsed.pwm") && t[1].widget == "skip";
  }

  /** No other section uses `visibleIf`. */
  lemma PlainSections()
    ensures forall k | k in {0, 1, 2, 5, 6} && k < |PropertyConfig()| ::
      forall i | 0 <= i < |PropertyConfig()[k].props| :: PropertyConfig()[k].props[i].visibleIf.None?
  {
  }

  lemma PropertyConfigVisibility()
    ensures forall k | 0 <= k < |PropertyConfig()| :: VisibilityResolves(PropertyConfig()[k].props)
  {
    SensorVisibility();
    ControlVisibility();
    PlainSections();
  }

  // ---------------------------------------------------------------------
  // fix_float, on the string `toFixed(4)` produced.

  /** The string without its trailing '0' characters. */
  function StripZeros(s: string): (r: string)
    ensures r <= s && (|r| > 0 ==> r[|r| - 1] != '0')
    ensures forall k | |r| <= k < |s| :: s[k] == '0'
  {
    if |s| > 0 && s[|s| - 1] == '0' then StripZeros(s[..|s| - 1]) else s
  }

  /** Reference definition: drop the trailing zeros, then one '.', and show "0" for nothing. */
  function FixFloatSpec(fixed: string): string {
    var t := StripZeros(fixed);
    var u := if |t| > 0 && t[|t| - 1] == '.' then t[..|t| - 1] else t;
    if |u| == 0 then "0" else u
  }

  /** A suffix fix_float may drop: zeros, optionally after one leading '.'. */
  predicate Removable(z: string) {
    (forall k | 0 <= k < |z| :: z[k] == '0') ||
    (|z| > 0 && z[0] == '.' && forall k | 1 <= k < |z| :: z[k] == '0')
  }

  method FixFloat(fixed: string) returns (r: string)
    ensures r == FixFloatSpec(fixed)
  {
    var i: int := |fixed| - 1;
    while i >= 0
      invariant -1 <= i < |fixed|
      invariant StripZeros(fixed) == StripZeros(fixed[..i + 1])
    {
      if fixed[i] != '0' {
        break;
      }
      assert fixed[..i + 1][..i] == fixed[..i];
      i := i - 1;
    }
    assert StripZeros(fixed[..i + 1]) == fixed[..i + 1];
    if i >= 0 && fixed[i] == '.' {
      i := i - 1;
    }
    if i < 0 {
      return "0";
    }
    r := fixed[..i + 1];
  }

  /** fix_float never yields the empty string; it yields "0" exactly when everything is
      removable, and otherwise the shortest prefix of its input whose remainder is removable.
      These clauses determine the result, so any string meeting them is fix_float's. */
  lemma FixFloatShape(fixed: string)
    ensures |FixFloatSpec(fixed)| > 0
    ensures Removable(fixed) ==> FixFloatSpec(fixed) == "0"
    ensures !Removable(fixed) ==>
      FixFloatSpec(fixed) <= fixed && Removable(fixed[|FixFloatSpec(fixed)|..])
    ensures !Removable(fixed) ==>
      forall j | 0 <= j < |FixFloatSpec(fixed)| :: !Removable(fixed[j..])
  {
    var t := StripZeros(fixed);
    var u := if |t| > 0 && t[|t| - 1] == '.' then t[..|t| - 1] else t;
    if |u| == 0 {
      assert |t| <= 1;
      if |t| == 1 {
        assert fixed[0] == '.';
      }
      assert Removable(fixed);
    } else if Removable(fixed) {
      assert false;
    } else {
      assert fixed[|u|..] == fixed[|u|..|t|] + fixed[|t|..];
      forall j | 0 <= j < |u| ensures !Removable(fixed[j..]) {
        var z := fixed[j..];
        if |u| == |t| {
          assert z[|t| - 1 - j] == t[|t| - 1];
        } else {
          assert z[|t| - 1 - j] == '.';
        }
      }
    }
  }

  /** Worked cases: "1.5000" shows as "1.5", "10.0000" as "10" (so the result can end in '0'
      and a second pass would change it), "0.0000" as "0". */
  lemma FixFloatExamples()
    ensures FixFloatSpec("1.5000") == "1.5"
    ensures FixFloatSpec("10.0000") == "10"
    ensures FixFloatSpec("0.0000") == "0"
    ensures FixFloatSpec("10") == "1"
  {
    assert "1.5000"[..5] == "1.500";
    assert "1.500"[..4] == "1.50";
    assert "1.50"[..3] == "1.5";
    assert StripZeros("1.5") == "1.5";
    assert "10.0000"[..6] == "10.000";
    assert "10.000"[..5] == "10.00";
    assert "10.00"[..4] == "10.0";
    assert "10.0"[..3] == "10.";
    assert StripZeros("10.") == "10.";
    assert "10."[..2] == "10";
    assert "0.0000"[..5] == "0.000";
    assert "0.000"[..4] == "0.00";
    assert "0.00"[..3] == "0.0";
    assert "0.0"[..2] == "0.";
    assert StripZeros("0.") == "0.";
    assert "0."[..1] == "0";
    assert "10"[..1] == "1";
    assert StripZeros("10") == StripZeros("1") == "1";
  }
}
