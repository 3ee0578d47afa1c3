/**
 * The firmware's property metadata: which configuration field each
 * parameter points at, the parameter's element type, the packet type it is
 * exchanged under and its MQTT topics. `build_metadata` and the three
 * variant builders return literal tables; visiting a table presents its
 * entries in declaration order.
 */
module Metadata {
  import opened Wrappers
  import P = Protocol
  import DC = DeviceConfig

  /** The fields of the variant payload structs. */
  datatype VariantField =
    | PwmPin | PwmPeriod
    | AnalogPin | AnalogResolution
    | Dsx18Pin | Dsx18Resolution | Dsx18Parasite

  function VariantFieldType(v: VariantField): DC.CType {
    match v
    case PwmPin => DC.CUint8
    case PwmPeriod => DC.CUint16
    case AnalogPin => DC.CUint8
    case AnalogResolution => DC.CUint8
    case Dsx18Pin => DC.CUint8
    case Dsx18Resolution => DC.CUint8
    case Dsx18Parasite => DC.CBool
  }

  /** The members of the data group: the whole Config, the whole RuntimeInfo and its two readings. */
  datatype DataField = DataConfig | DataState | DataSensorValue | DataControlValue

  function DataFieldType(d: DataField): DC.CType {
    match d
    case DataConfig => DC.CRecord(DC.ConfigSize)
    case DataState => DC.CRecord(DC.RuntimeInfoSize)
    case DataSensorValue => DC.CFloat
    case DataControlValue => DC.CFloat
  }

  /** What a parameter's pointer designates. */
  datatype Target = ConfigMember(f: DC.ConfigField) | VariantMember(v: VariantField) | DataMember(d: DataField)

  function TargetType(t: Target): DC.CType {
    match t
    case ConfigMember(f) => DC.FieldType(f)
    case VariantMember(v) => VariantFieldType(v)
    case DataMember(d) => DataFieldType(d)
  }

  /** `Parameter<T>` for the five scalar element types, `FixedString` with its length, and
      `ComplexParameter` over a whole struct. */
  datatype ParamType = PBool | PUint8 | PUint16 | PUint32 | PFloat | PFixedString(n: nat) | PComplex(size: nat)

  datatype MetaEntry = MetaEntry(
    target: Target,
    packetType: Option<P.PacketType>,
    param: ParamType,
    topicIn: Option<string>,
    topicOut: Option<string>)

  /** A parameter can point at a field of this C type: same width and meaning, where a uint8_t
      view of a one-byte enum counts as a match. */
  predicate Compatible(p: ParamType, c: DC.CType) {
    match p
    case PBool => c == DC.CBool
    case PUint8 => c == DC.CUint8 || c == DC.CEnum8
    case PUint16 => c == DC.CUint16
    case PUint32 => c == DC.CUint32
    case PFloat => c == DC.CFloat
    case PFixedString(n) => c == DC.CChars(n)
    case PComplex(n) => c == DC.CRecord(n)
  }

  function Bound(t: Target, p: P.PacketType, ty: ParamType): MetaEntry {
    MetaEntry(t, Some(p), ty, None, None)
  }

  const TopicPower: string := "/power"
  const TopicNightMode: string := "/night_mode"
  const OutTopicPower: string := "/out/power"
  const OutTopicNightMode: string := "/out/night_mode"

  // build_metadata, group by group in declaration order.

  function PowerMeta(): seq<MetaEntry> {
    [MetaEntry(ConfigMember(DC.Power), Some(P.Power), PBool, Some(TopicPower), Some(OutTopicPower))]
  }

  function RegulatorMeta(): seq<MetaEntry> {
    [ Bound(ConfigMember(DC.SensorType), P.SensorType, PUint8),
      Bound(ConfigMember(DC.ControlType), P.ControlType, PUint8),
      Bound(ConfigMember(DC.PidTarget), P.PidTarget, PFloat),
      Bound(ConfigMember(DC.PidP), P.PidP, PFloat),
      Bound(ConfigMember(DC.PidI), P.PidI, PFloat),
      Bound(ConfigMember(DC.PidD), P.PidD, PFloat),
      Bound(ConfigMember(DC.PidInterval), P.PidInterval, PUint16),
      Bound(ConfigMember(DC.PidReverse), P.PidReverse, PBool) ]
  }

  function NightModeMeta(): seq<MetaEntry> {
    [ MetaEntry(ConfigMember(DC.NightModeEnabled), Some(P.NightModeEnabled), PBool,
        Some(TopicNightMode), Some(OutTopicNightMode)),
      Bound(ConfigMember(DC.NightModeStartTime), P.NightModeStart, PUint32),
      Bound(ConfigMember(DC.NightModeEndTime), P.NightModeEnd, PUint32) ]
  }

  function SysConfigMeta(): seq<MetaEntry> {
    [ Bound(ConfigMember(DC.MdnsName), P.SysConfigMdnsName, PFixedString(DC.ConfigStringSize)),
      Bound(ConfigMember(DC.WifiMode), P.SysConfigWifiMode, PUint8),
      Bound(ConfigMember(DC.WifiSsid), P.SysConfigWifiSsid, PFixedString(DC.ConfigStringSize)),
      Bound(ConfigMember(DC.WifiPassword), P.SysConfigWifiPassword, PFixedString(DC.ConfigStringSize)),
      Bound(ConfigMember(DC.WifiConnectionCheckInterval), P.SysConfigWifiConnectionCheckInterval, PUint32),
      Bound(ConfigMember(DC.WifiMaxConnectionAttemptInterval), P.SysConfigWifiMaxConnectionAttemptInterval, PUint32),
      Bound(ConfigMember(DC.TimeZone), P.SysConfigTimeZone, PFloat),
      Bound(ConfigMember(DC.Mqtt), P.SysConfigMqttEnabled, PBool),
      Bound(ConfigMember(DC.MqttHost), P.SysConfigMqttHost, PFixedString(DC.ConfigStringSize)),
      Bound(ConfigMember(DC.MqttPort), P.SysConfigMqttPort, PUint16),
      Bound(ConfigMember(DC.MqttUser), P.SysConfigMqttUser, PFixedString(DC.ConfigStringSize)),
      Bound(ConfigMember(DC.MqttPassword), P.SysConfigMqttPassword, PFixedString(DC.ConfigStringSize)) ]
  }

  /** The data group carries no packet type and no topics. */
  function DataMeta(): seq<MetaEntry> {
    [ MetaEntry(DataMember(DataConfig), None, PComplex(DC.ConfigSize), None, None),
      MetaEntry(DataMember(DataState), None, PComplex(DC.RuntimeInfoSize), None, None),
      MetaEntry(DataMember(DataSensorValue), None, PFloat, None, None),
      MetaEntry(DataMember(DataControlValue), None, PFloat, None, None) ]
  }

  /** build_metadata as its visit presents it. */
  function BuildMetadata(): seq<MetaEntry> {
    PowerMeta() + RegulatorMeta() + NightModeMeta() + SysConfigMeta() + DataMeta()
  }

  ghost predicate PacketsDistinct(t: seq<MetaEntry>) {
    forall i, j | 0 <= i < j < |t| :: t[i].packetType.Some? ==> t[i].packetType != t[j].packetType
  }

  ghost predicate PacketsDisjoint(a: seq<MetaEntry>, b: seq<MetaEntry>) {
    forall i, j | 0 <= i < |a| && 0 <= j < |b| :: a[i].packetType.Some? ==> a[i].packetType != b[j].packetType
  }

  lemma DistinctConcat(a: seq<MetaEntry>, b: seq<MetaEntry>)
    requires PacketsDistinct(a) && PacketsDistinct(b) && PacketsDisjoint(a, b)
    ensures PacketsDistinct(a + b)
  {
    var t := a + b;
    forall i, j | 0 <= i < j < |t| && t[i].packetType.Some?
      ensures t[i].packetType != t[j].packetType
    {
      if j < |a| {
        assert t[i] == a[i] && t[j] == a[j];
      } else if i < |a| {
        assert t[i] == a[i] && t[j] == b[j - |a|];
      } else {
        assert t[i] == b[i - |a|] && t[j] == b[j - |a|];
      }
    }
  }

  /** The block of the packet-type list a code belongs to; used to separate tables. */
  function Group(t: P.PacketType): nat {
    match t
    case Power => 0
    case SensorType => 1
    case ControlType => 1
    case PidTarget => 1
    case PidP => 1
    case PidI => 1
    case PidD => 1
    case PidInterval => 1
    case PidReverse => 1
    case NightModeEnabled => 2
    case NightModeStart => 2
    case NightModeEnd => 2
    case AnalogSensorPin => 4
    case AnalogSensorResolution => 4
    case Dsx18SensorPin => 5
    case Dsx18SensorResolution => 5
    case Dsx18SensorParasite => 5
    case PwmControlPin => 6
    case PwmControlPeriod => 6
    case SensorValue => 7
    case ControlValue => 7
    case HistoryData => 7
    case GetConfig => 7
    case GetState => 7
    case Restart => 7
    case _ => 3
  }

  ghost predicate InGroup(t: seq<MetaEntry>, g: nat) {
    forall i | 0 <= i < |t| :: t[i].packetType.Some? ==> Group(t[i].packetType.value) == g
  }

  lemma GroupsDisjoint(a: seq<MetaEntry>, b: seq<MetaEntry>, ga: nat, gb: nat)
    requires InGroup(a, ga) && InGroup(b, gb) && ga != gb
    ensures PacketsDisjoint(a, b)
  {
  }

  lemma NoPacketsDisjoint(a: seq<MetaEntry>, b: seq<MetaEntry>)
    requires forall j | 0 <= j < |b| :: b[j].packetType.None?
    ensures PacketsDisjoint(a, b)
  {
  }

  // ---------------------------------------------------------------------
  // The variant builders.

  function PwmControlMeta(): seq<MetaEntry> {
    [ Bound(VariantMember(PwmPin), P.PwmControlPin, PUint8),
      Bound(VariantMember(PwmPeriod), P.PwmControlPeriod, PUint16) ]
  }

  function AnalogSensorMeta(): seq<MetaEntry> {
    [ Bound(VariantMember(AnalogPin), P.AnalogSensorPin, PUint8),
      Bound(VariantMember(AnalogResolution), P.AnalogSensorResolution, PUint8) ]
  }

  function Dsx18SensorMeta(): seq<MetaEntry> {
    [ Bound(VariantMember(Dsx18Pin), P.Dsx18SensorPin, PUint8),
      Bound(VariantMember(Dsx18Resolution), P.Dsx18SensorResolution, PUint8),
      Bound(VariantMember(Dsx18Parasite), P.Dsx18SensorParasite, PBool) ]
  }

  /** A type-erased holder of one variant table. */
  datatype MetaHolder = MetaHolder(table: seq<MetaEntry>)

  // ---------------------------------------------------------------------
  // Integrity of the tables.

  ghost predicate TypesMatch(t: seq<MetaEntry>) {
    forall i | 0 <= i < |t| :: Compatible(t[i].param, TargetType(t[i].target))
  }

  lemma TypesMatchConcat(a: seq<MetaEntry>, b: seq<MetaEntry>)
    requires TypesMatch(a) && TypesMatch(b)
    ensures TypesMatch(a + b)
  {
    forall i | 0 <= i < |a + b|
      ensures Compatible((a + b)[i].param, TargetType((a + b)[i].target))
    {
      if i >= |a| {
        assert (a + b)[i] == b[i - |a|];
      }
    }
  }

  /** Every packet of the table lies in a group at most g. */
  ghost predicate GroupsAtMost(t: seq<MetaEntry>, g: nat) {
    forall i | 0 <= i < |t| :: t[i].packetType.Some? ==> Group(t[i].packetType.value) <= g
  }

  ghost predicate Unbound(t: seq<MetaEntry>) {
    forall i | 0 <= i < |t| :: t[i].packetType.None?
  }

  lemma InGroupAtMost(t: seq<MetaEntry>, g: nat, h: nat)
    requires InGroup(t, g) && g <= h
    ensures GroupsAtMost(t, h)
  {
  }

  lemma AtMostConcat(a: seq<MetaEntry>, b: seq<MetaEntry>, g: nat)
    requires GroupsAtMost(a, g) && GroupsAtMost(b, g)
    ensures GroupsAtMost(a + b, g)
  {
    forall i | 0 <= i < |a + b| && (a + b)[i].packetType.Some?
      ensures Group((a + b)[i].packetType.value) <= g
    {
      if i >= |a| {
        assert (a + b)[i] == b[i - |a|];
      } else {
        assert (a + b)[i] == a[i];
      }
    }
  }

  lemma UnboundAtMost(t: seq<MetaEntry>, g: nat)
    requires Unbound(t)
    ensures GroupsAtMost(t, g)
  {
  }

  lemma LowGroups(a: seq<MetaEntry>, b: seq<MetaEntry>, g: nat)
    requires g > 0 && GroupsAtMost(a, g - 1) && InGroup(b, g)
    ensures PacketsDisjoint(a, b)
  {
  }

  /** `a` then a table of the next group up stays duplicate-free. */
  lemma AppendGroup(a: seq<MetaEntry>, b: seq<MetaEntry>, g: nat)
    requires g > 0 && PacketsDistinct(a) && GroupsAtMost(a, g - 1)
    requires PacketsDistinct(b) && InGroup(b, g)
    ensures PacketsDistinct(a + b) && GroupsAtMost(a + b, g)
  {
    LowGroups(a, b, g);
    DistinctConcat(a, b);
    InGroupAtMost(b, g, g);
    AtMostConcat(a, b, g);
  }

  lemma AppendUnbound(a: seq<MetaEntry>, b: seq<MetaEntry>, g: nat)
    requires PacketsDistinct(a) && GroupsAtMost(a, g) && Unbound(b)
    ensures PacketsDistinct(a + b) && GroupsAtMost(a + b, g)
  {
    NoPacketsDisjoint(a, b);
    DistinctConcat(a, b);
    UnboundAtMost(b, g);
    AtMostConcat(a, b, g);
  }

  // Facts about each group, each proved on its own literal.

  lemma PowerFacts()
    ensures PacketsDistinct(PowerMeta()) && InGroup(PowerMeta(), 0) && TypesMatch(PowerMeta())
  {
    PowerDistinct();
    PowerTypes();
  }

  lemma PowerDistinct()
    ensures PacketsDistinct(PowerMeta()) && InGroup(PowerMeta(), 0)
  {
  }

  lemma PowerTypes()
    ensures TypesMatch(PowerMeta())
  {
  }

  lemma RegulatorFacts()
    ensures PacketsDistinct(RegulatorMeta()) && InGroup(RegulatorMeta(), 1) && TypesMatch(RegulatorMeta())
  {
    RegulatorDistinct();
    RegulatorTypes();
  }

  lemma RegulatorDistinct()
    ensures PacketsDistinct(RegulatorMeta()) && InGroup(RegulatorMeta(), 1)
  {
  }

  lemma RegulatorTypes()
    ensures TypesMatch(RegulatorMeta())
  {
  }

  lemma NightModeFacts()
    ensures PacketsDistinct(NightModeMeta()) && InGroup(NightModeMeta(), 2) && TypesMatch(NightModeMeta())
  {
    NightModeDistinct();
    NightModeTypes();
  }

  lemma NightModeDistinct()
    ensures PacketsDistinct(NightModeMeta()) && InGroup(NightModeMeta(), 2)
  {
  }

  lemma NightModeTypes()
    ensures TypesMatch(NightModeMeta())
  {
  }

  lemma SysConfigFacts()
    ensures PacketsDistinct(SysConfigMeta()) && InGroup(SysConfigMeta(), 3) && TypesMatch(SysConfigMeta())
  {
    SysConfigDistinct();
    SysConfigTypes();
  }

  /** The packet types of the system-settings table, in slot order. */
  const SysConfigPackets: seq<P.PacketType> := [
    P.SysConfigMdnsName, P.SysConfigWifiMode, P.SysConfigWifiSsid, P.SysConfigWifiPassword,
    P.SysConfigWifiConnectionCheckInterval, P.SysConfigWifiMaxConnectionAttemptInterval,
    P.SysConfigTimeZone, P.SysConfigMqttEnabled, P.SysConfigMqttHost, P.SysConfigMqttPort,
    P.SysConfigMqttUser, P.SysConfigMqttPassword]

  lemma SysConfigPacketsListed()
    ensures |SysConfigMeta()| == |SysConfigPackets|
    ensures forall i | 0 <= i < |SysConfigPackets| :: SysConfigMeta()[i].packetType == Some(SysConfigPackets[i])
  {
  }

  lemma SysConfigPacketsDistinct()
    ensures forall i, j | 0 <= i < j < |SysConfigPackets| :: SysConfigPackets[i] != SysConfigPackets[j]
  {
  }

  lemma SysConfigPacketsInGroup()
    ensures forall i | 0 <= i < |SysConfigPackets| :: Group(SysConfigPackets[i]) == 3
  {
  }

  lemma SysConfigDistinct()
    ensures PacketsDistinct(SysConfigMeta()) && InGroup(SysConfigMeta(), 3)
  {
    SysConfigPacketsListed();
    SysConfigPacketsDistinct();
    SysConfigPacketsInGroup();
  }

  lemma SysConfigTypes()
    ensures TypesMatch(SysConfigMeta())
  {
  }

  lemma AnalogFacts()
    ensures PacketsDistinct(AnalogSensorMeta()) && InGroup(AnalogSensorMeta(), 4) && TypesMatch(AnalogSensorMeta())
  {
    AnalogDistinct();
    AnalogTypes();
  }

  lemma AnalogDistinct()
    ensures PacketsDistinct(AnalogSensorMeta()) && InGroup(AnalogSensorMeta(), 4)
  {
  }

  lemma AnalogTypes()
    ensures TypesMatch(AnalogSensorMeta())
  {
  }

  lemma Dsx18Facts()
    ensures PacketsDistinct(Dsx18SensorMeta()) && InGroup(Dsx18SensorMeta(), 5) && TypesMatch(Dsx18SensorMeta())
  {
    Dsx18Distinct();
    Dsx18Types();
  }

  lemma Dsx18Distinct()
    ensures PacketsDistinct(Dsx18SensorMeta()) && InGroup(Dsx18SensorMeta(), 5)
  {
  }

  lemma Dsx18Types()
    ensures TypesMatch(Dsx18SensorMeta())
  {
  }

  lemma PwmFacts()
    ensures PacketsDistinct(PwmControlMeta()) && InGroup(PwmControlMeta(), 6) && TypesMatch(PwmControlMeta())
  {
    PwmDistinct();
    PwmTypes();
  }

  lemma PwmDistinct()
    ensures PacketsDistinct(PwmControlMeta()) && InGroup(PwmControlMeta(), 6)
  {
  }

  lemma PwmTypes()
    ensures TypesMatch(PwmControlMeta())
  {
  }

  lemma DataFacts()
    ensures Unbound(DataMeta()) && TypesMatch(DataMeta())
  {
  }

  lemma VariantFacts()
    ensures PacketsDistinct(AnalogSensorMeta()) && InGroup(AnalogSensorMeta(), 4) && TypesMatch(AnalogSensorMeta())
    ensures PacketsDistinct(Dsx18SensorMeta()) && InGroup(Dsx18SensorMeta(), 5) && TypesMatch(Dsx18SensorMeta())
    ensures PacketsDistinct(PwmControlMeta()) && InGroup(PwmControlMeta(), 6) && TypesMatch(PwmControlMeta())
  {
    AnalogFacts();
    Dsx18Facts();
    PwmFacts();
  }

  /** No packet type is bound twice in build_metadata. */
  lemma BuildMetadataPacketsDistinct()
    ensures PacketsDistinct(BuildMetadata()) && GroupsAtMost(BuildMetadata(), 3)
  {
    var a, b, c, d, e := PowerMeta(), RegulatorMeta(), NightModeMeta(), SysConfigMeta(), DataMeta();
    PowerFacts();
    RegulatorFacts();
    NightModeFacts();
    SysConfigFacts();
    DataFacts();
    InGroupAtMost(a, 0, 0);
    AppendGroup(a, b, 1);
    AppendGroup(a + b, c, 2);
    AppendGroup(a + b + c, d, 3);
    AppendUnbound(a + b + c + d, e, 3);
  }

  /** Each parameter's element type matches the field it points at (uint8_t over the one-byte
      enums sensor type, control type and Wi-Fi mode). */
  lemma BuildMetadataTypesMatch()
    ensures TypesMatch(BuildMetadata())
  {
    var a, b, c, d, e := PowerMeta(), RegulatorMeta(), NightModeMeta(), SysConfigMeta(), DataMeta();
    PowerFacts();
    RegulatorFacts();
    NightModeFacts();
    SysConfigFacts();
    DataFacts();
    TypesMatchConcat(a, b);
    TypesMatchConcat(a + b, c);
    TypesMatchConcat(a + b + c, d);
    TypesMatchConcat(a + b + c + d, e);
  }

  /** Every FixedString parameter is bound with the length of the char array it points at,
      CONFIG_STRING_SIZE. */
  lemma FixedStringsSized()
    ensures forall i | 0 <= i < |BuildMetadata()| && BuildMetadata()[i].param.PFixedString? ::
      BuildMetadata()[i].param.n == DC.ConfigStringSize
      && TargetType(BuildMetadata()[i].target) == DC.CChars(DC.ConfigStringSize)
  {
    BuildMetadataTypesMatch();
    var t := BuildMetadata();
    forall i | 0 <= i < |t| && t[i].param.PFixedString?
      ensures t[i].param.n == DC.ConfigStringSize
    {
      assert Compatible(t[i].param, TargetType(t[i].target));
    }
  }

  /** Only power and night_mode.enabled are exposed over MQTT, and those two with both an in and
      an out topic. */
  lemma TopicsOnlyPowerAndNightMode()
    ensures forall i | 0 <= i < |BuildMetadata()| ::
      (BuildMetadata()[i].topicIn.Some? || BuildMetadata()[i].topicOut.Some?)
      <==> BuildMetadata()[i].target in {ConfigMember(DC.Power), ConfigMember(DC.NightModeEnabled)}
    ensures forall i | 0 <= i < |BuildMetadata()| ::
      BuildMetadata()[i].topicIn.Some? <==> BuildMetadata()[i].topicOut.Some?
  {
    var a, b, c, d, e := PowerMeta(), RegulatorMeta(), NightModeMeta(), SysConfigMeta(), DataMeta();
    var t := BuildMetadata();
    forall i | 0 <= i < |t|
      ensures (t[i].topicIn.Some? || t[i].topicOut.Some?)
        <==> t[i].target in {ConfigMember(DC.Power), ConfigMember(DC.NightModeEnabled)}
      ensures t[i].topicIn.Some? <==> t[i].topicOut.Some?
    {
      if i < 1 {
        assert t[i] == a[i];
      } else if i < 9 {
        assert t[i] == b[i - 1];
      } else if i < 12 {
        assert t[i] == c[i - 9];
      } else if i < 24 {
        assert t[i] == d[i - 12];
      } else {
        assert t[i] == e[i - 24];
      }
    }
  }

  /** The data group, and nothing else, lacks a packet type. */
  lemma OnlyDataUnbound()
    ensures forall i | 0 <= i < |BuildMetadata()| ::
      BuildMetadata()[i].packetType.None? <==> BuildMetadata()[i].target.DataMember?
  {
    var a, b, c, d, e := PowerMeta(), RegulatorMeta(), NightModeMeta(), SysConfigMeta(), DataMeta();
    var t := BuildMetadata();
    forall i | 0 <= i < |t|
      ensures t[i].packetType.None? <==> t[i].target.DataMember?
    {
      if i < 1 {
        assert t[i] == a[i];
      } else if i < 9 {
        assert t[i] == b[i - 1];
      } else if i < 12 {
        assert t[i] == c[i - 9];
      } else if i < 24 {
        assert t[i] == d[i - 12];
      } else {
        assert t[i] == e[i - 24];
      }
    }
  }

  /** Everything the device registers: build_metadata, then the selected sensor variant's
      table, then the PWM table. A holder's visit presents exactly its table, in order. */
  function Registered(sensorMeta: MetaHolder): seq<MetaEntry> {
    BuildMetadata() + sensorMeta.table + PwmControlMeta()
  }

  /** Whichever sensor variant is selected, no packet type is registered twice, and every
      parameter's type matches its field. */
  lemma RegisteredWellFormed(sensorMeta: MetaHolder)
    requires sensorMeta.table == Dsx18SensorMeta() || sensorMeta.table == AnalogSensorMeta()
    ensures PacketsDistinct(Registered(sensorMeta))
    ensures TypesMatch(Registered(sensorMeta))
  {
    var m := BuildMetadata();
    var s := sensorMeta.table;
    var w := PwmControlMeta();
    BuildMetadataPacketsDistinct();
    BuildMetadataTypesMatch();
    VariantFacts();
    assert PacketsDistinct(m + s) && TypesMatch(m + s) && GroupsAtMost(m + s, 5) by {
      if s == Dsx18SensorMeta() {
        ExtendGroups(m, 3, 4);
        AppendGroup(m, s, 5);
      } else {
        AppendGroup(m, s, 4);
        ExtendGroups(m + s, 4, 5);
      }
      TypesMatchConcat(m, s);
    }
    AppendGroup(m + s, w, 6);
    TypesMatchConcat(m + s, w);
  }

  lemma ExtendGroups(t: seq<MetaEntry>, g: nat, h: nat)
    requires GroupsAtMost(t, g) && g <= h
    ensures GroupsAtMost(t, h)
  {
  }
}
