# esp-pid: the wire contract and state machines, in Dafny

esp-pid is the firmware of an ESP-based PID regulator (a temperature sensor, a
PWM output, a PID loop between them) together with the web console that
configures and watches it. The two halves share a binary contract:

- the device persists its settings as packed C structs (`Config` and the
  variant payloads of the sensor and the control) and sends those bytes on a
  configuration request; the console decodes them field by field with a
  little cursor-based parser;
- the device keeps its last 128 samples in a ring (write at `index`, advance
  modulo `HISTORY_COUNT`); the console rotates the slots from `index` and drops
  samples whose sensor or control value is NaN before charting;
- the device binds every configuration field to a packet type in its metadata
  tables; the console's `PropertyConfig` table names the packet type and the
  wire kind of every widget.

This project models those bytes, tables and state machines and proves the two
sides agree:

| file | models |
|---|---|
| `wrappers.dfy` | `Option`, used by every decode that can run out of bytes |
| `wire.dfy` | fixed-width encodings, bounds-checked reads, the console's `BinaryParser` class |
| `float32.dfy` | `float` as a `bv32` bit pattern: NaN, value, `std::min`/`std::max` clamp to [0,1] |
| `dsx18_sensor.dfy`, `analog_sensor.dfy`, `pwm_control.dfy` | the variant configs, the DS18 read-once latch, the analog scale, the PWM phase timer |
| `device_config.dfy` | the packed `Config` layout, the defaults, the constructors' in-place copy into the 1024-byte block |
| `protocol.dfy`, `metadata.dfy` | packet types and the device's field → packet-type tables |
| `application.dfy` | the application class: activity decision, PID interval gate, history write, property-change dispatch, bootstrap reaction, variant selection |
| `console_config.dfy` | the console's `Config` class: `parse`, `#parseSensor`, `#parseControl`, `parseHistory`, `#parseState`, the enum lists |
| `chart.dfy`, `history_chart.dfy` | the two chart controls' decoders and their reconstruction loop |
| `history.dfy` | the ring, its rotation and NaN filter, and what the console shows after any run of writes |
| `props.dfy` | the console's property table and `fix_float` |
| `contract.dfy` | the cross-file theorems: configuration round trip, history end to end, every console command served by the device |

Assumptions stated in the model: both ends use little-endian byte order
(`Wire.WireOrder`; the parser's source is not part of this model, so the byte
order is a parameter of every read); `WifiMode` is one byte wide (the metadata
exposes it through a `uint8_t` view); `CONFIG_STRING_SIZE` is 32 (the console
reads 32-byte strings); a read past the end of a buffer yields `None` and the
parse stops there; `readBoolean` reads any non-zero byte as true; a fixed
string is its bytes before the first NUL.

## Model

| member | source | states |
|---|---|---|
| Wire.CString | www/src/config.js:81 | the text of a fixed string field is a prefix of its bytes, NUL-free, followed by a NUL unless it fills the field |
| Wire.CStringOfPadded | src/app/config.h:20 | a NUL-free text padded with zeros to a `ConfigString` reads back as that text |
| Wire.U16Inverse | www/src/config.js:69 | decoding a 16-bit field undoes encoding it, in either byte order |
| Wire.U16Bijective | www/src/config.js:69 | encoding the decoded pair of bytes restores the bytes |
| Wire.U32Inverse | www/src/config.js:75-76 | decoding a 32-bit (or float) field undoes encoding it |
| Wire.U32Bijective | www/src/config.js:75-76 | encoding the decoded four bytes restores the bytes |
| Wire.ReadU8 | www/src/config.js:49 | a one-byte read succeeds exactly when the byte is in the buffer and advances the cursor by one |
| Wire.ReadBool | www/src/config.js:46 | a boolean read succeeds exactly when a byte remains and advances by one |
| Wire.ReadU16 | www/src/config.js:69 | a u16 read succeeds exactly when two bytes remain and advances by two |
| Wire.ReadU32 | www/src/config.js:75-76 | a u32 read succeeds exactly when four bytes remain and advances by four |
| Wire.ReadF32 | www/src/config.js:63-67 | a float read succeeds exactly when four bytes remain and advances by four |
| Wire.ReadBytes | www/src/config.js:50 | `readBinary(n)` yields exactly n bytes and advances by n, or fails when fewer remain |
| Wire.ReadFixedStr | www/src/config.js:81 | `readFixedString(n)` consumes n bytes and yields at most n, or fails when fewer remain |
| Wire.ReadU8At | www/src/config.js:49 | a byte placed at the cursor reads back as that byte |
| Wire.ReadBoolAt | www/src/config.js:46 | a packed bool reads back as that bool |
| Wire.ReadU16At | www/src/config.js:69 | a packed u16 reads back as that value |
| Wire.ReadU32At | www/src/config.js:63-67 | a packed u32 or float reads back as that value |
| Wire.ReadBinaryAt | www/src/config.js:50 | a placed block reads back unchanged |
| Wire.ReadFixedStringAt | www/src/config.js:81 | a placed string field reads back as its text |
| Wire.BinaryParser.ReadUint8 | www/src/config.js:49 | the parser's read yields the pure read's value and moves the cursor to its end |
| Wire.BinaryParser.ReadBoolean | www/src/config.js:46 | the same for a boolean |
| Wire.BinaryParser.ReadUint16 | www/src/config.js:69 | the same for a u16 |
| Wire.BinaryParser.ReadUint32 | www/src/config.js:75-76 | the same for a u32 |
| Wire.BinaryParser.ReadFloat32 | www/src/config.js:63-67 | the same for a float |
| Wire.BinaryParser.ReadBinary | www/src/config.js:50 | the same for a block |
| Wire.BinaryParser.ReadFixedString | www/src/config.js:81 | the same for a fixed string |
| Float32.Value | src/controls/pwm_control.h:32 | a float's value is NaN exactly for the IEEE 754 binary32 NaN patterns, otherwise an infinity or a real |
| Float32.ConstantValues | src/app/config.h:69-75 | the bit patterns used for 0, 1, 5 and 30 have those values |
| Float32.PointZeroFiveValue | src/app/config.h:72 | the pattern stored for `0.05` is 13421773·2^-28, within half a unit in the last place of 0.05 |
| Float32.Clamp01 | src/controls/pwm_control.h:32 | `max(0, min(v, 1))` yields 0, 1 or v, never NaN, 0 exactly when `0 < v` fails and 1 exactly when `1 < v` |
| Float32.Clamp01Range | src/controls/pwm_control.h:32 | the clamp lies in [0,1]; NaN and values ≤ 0 give 0, values > 1 and +inf give 1, values in (0,1] are kept |
| Dsx18.Pack | src/sensors/dsx18_sensor.h:9-13 | the packed DS18 config is pin, resolution, parasite: 3 bytes |
| Dsx18.Unpack | src/sensors/dsx18_sensor.cpp:7 | the sensor takes its config from the first 3 bytes of the block |
| Dsx18.UnpackPack | src/sensors/dsx18_sensor.cpp:7 | unpacking a packed config, whatever follows it, returns that config |
| Dsx18.DefaultBytes | src/sensors/dsx18_sensor.h:10-12 | the default config packs as pin 2, resolution 10, parasite false |
| Dsx18.DSx18Sensor.constructor | src/sensors/dsx18_sensor.h:24-25 | a new sensor holds the block's config, no value, last value 0 |
| Dsx18.DSx18Sensor.HasValue | src/sensors/dsx18_sensor.h:32 | reports the latch and changes nothing |
| Dsx18.DSx18Sensor.GetValue | src/sensors/dsx18_sensor.h:34-37 | returns the last value and clears the latch, so a following `HasValue` is false |
| Dsx18.DSx18Sensor.Deliver | src/sensors/dsx18_sensor.cpp:32-37 | a read sets the latch to its success and stores the temperature only on success |
| Analog.Pack | src/sensors/analog_sensor.h:9-12 | the packed analog config is pin, resolution: 2 bytes |
| Analog.Unpack | src/sensors/analog_sensor.h:20-22 | the constructor takes its config from the first 2 bytes of the block |
| Analog.UnpackPack | src/sensors/analog_sensor.h:20-22 | unpacking a packed config returns it |
| Analog.PackUnpack | src/sensors/analog_sensor.h:20-22 | packing the unpacked config restores the first 2 bytes |
| Analog.MaxValue | src/sensors/analog_sensor.h:27 | `2 << (res-1)` stored in a `uint16_t` lies in [0, 65536) |
| Analog.MaxValueIsPowerOfTwo | src/sensors/analog_sensor.h:27 | the stored scale is 2^res for 1 ≤ res ≤ 15 and wraps to 0 for 16 ≤ res ≤ 31 |
| Analog.AnalogSensor.constructor | src/sensors/analog_sensor.h:17-22 | a new sensor holds the block's config and scale 0 |
| Analog.AnalogSensor.Begin | src/sensors/analog_sensor.h:24-28 | `begin` sets the scale to `MaxValue(resolution)` |
| Analog.AnalogSensor.HasValue | src/sensors/analog_sensor.h:30 | always true |
| Pwm.Pack | src/controls/pwm_control.h:8-11 | the packed PWM config is pin then u16 period: 3 bytes |
| Pwm.Unpack | src/controls/pwm_control.cpp:8-10 | the constructor takes its config from the first 3 bytes of the block |
| Pwm.UnpackPack | src/controls/pwm_control.cpp:8-10 | unpacking a packed config returns it |
| Pwm.PackUnpack | src/controls/pwm_control.cpp:8-10 | packing the unpacked config restores the first 3 bytes |
| Pwm.DefaultBytes | src/controls/pwm_control.h:9-10 | the default config packs as pin 0, period 500 |
| Pwm.OnTime | src/controls/pwm_control.cpp:35 | the on phase `(uint16_t)(value * period)` lies in [0, period] for a duty in [0,1] |
| Pwm.OffTime | src/controls/pwm_control.cpp:36 | the off phase is period minus the on phase and never underflows |
| Pwm.ZeroDuty | src/controls/pwm_control.cpp:35-36 | duty 0 gives on 0, off period |
| Pwm.FullDuty | src/controls/pwm_control.cpp:35-36 | duty 1 gives on period, off 0 |
| Pwm.ClampIsDuty | src/controls/pwm_control.h:32 | whatever `set_value` receives, the stored value is a duty in [0,1] |
| Pwm.SameValue | src/controls/pwm_control.cpp:45 | two duties that compare equal give the same on and off phases for every period, so skipping the recomputation keeps the right timings |
| Pwm.PwmControl.constructor | src/controls/pwm_control.h:18-25 | a new control is off, with both values 0, both phases 0 and no pin writes |
| Pwm.PwmControl.GetValue | src/controls/pwm_control.h:31 | returns the stored value, a duty, and changes nothing |
| Pwm.PwmControl.SetValue | src/controls/pwm_control.h:32 | stores the clamp of its argument and changes nothing else |
| Pwm.PwmControl.UpdateValue | src/controls/pwm_control.cpp:33-39 | records the applied value and sets on + off = period with on ≤ period |
| Pwm.PwmControl.SetState | src/controls/pwm_control.cpp:41-48 | records state and change time; recomputes the phases exactly when the applied value differs; afterwards applied == stored |
| Pwm.PwmControl.WritePin | src/controls/pwm_control.cpp:50-52 | appends the current state to the pin log and changes nothing else |
| Pwm.PwmControl.Begin | src/controls/pwm_control.cpp:12-21 | applies the stored value and restamps the state, leaving the phases consistent |
| Pwm.PwmControl.Update | src/controls/pwm_control.cpp:23-31 | on→off once `now - t ≥ on` (writing the pin only if off > 0), off→on once `now - t ≥ off` (only if on > 0), otherwise nothing changes; on a transition the phases are recomputed for the requested duty when it differs from the applied one and kept otherwise; u32 wrap-around of the elapsed time |
| DeviceConfig.PackSysConfig | src/app/config.h:22-39 | the packed system settings are 208 bytes |
| DeviceConfig.PackNightModeConfig | src/app/config.h:41-46 | the packed night-mode settings are 9 bytes |
| DeviceConfig.PackSensorConfig | src/app/config.h:48-51 | a sensor record is its type byte and its 1024-byte block |
| DeviceConfig.PackControlConfig | src/app/config.h:58-61 | a control record is its type byte and its 1024-byte block |
| DeviceConfig.PackPidConfig | src/app/config.h:68-77 | the packed PID settings are 19 bytes |
| DeviceConfig.PackRegulatorConfig | src/app/config.h:79-83 | sensor, control, pid in that order |
| DeviceConfig.PackConfig | src/app/config.h:85-92 | the packed `Config` is 2287 bytes |
| DeviceConfig.PackRuntimeInfo | src/app/config.h:94-97 | the runtime info is the two readings, 8 bytes |
| DeviceConfig.ConfigLayout | src/app/config.h:85-92 | power at 0, sensor type at 1 and block at 2..1026, control type at 1026 and block at 1027..2051, pid at 2051, night mode at 2070, system settings from 2079 |
| DeviceConfig.StringField | src/app/config.h:23 | a string initialiser is its characters followed by NUL padding |
| DeviceConfig.DefaultSensorLayout | src/app/config.h:52-55 | the default sensor record is DSX18X, bytes 0-2 hold pin 2, resolution 10, parasite false, the other 1021 bytes are zero |
| DeviceConfig.DefaultControlLayout | src/app/config.h:62-65 | the default control record is PWM, bytes 0-2 hold pin 0 and period 500, the rest are zero |
| DeviceConfig.DefaultValues | src/app/config.h:23-86 | power on; night mode off, 0 to 36000 s; target 30, p 1, i the binary32 13421773·2^-28 of `0.05`, d 0, interval 1000, not reversed; mDNS name "esp_pid", MQTT off, time zone 5 |
| DeviceConfig.CopyInto | src/app/config.h:54 | `memcpy` into the block replaces its first bytes by the source and keeps the rest |
| DeviceConfig.NewSensorConfig | src/app/config.h:52-55 | the constructor builds the default sensor record in place |
| DeviceConfig.NewControlConfig | src/app/config.h:62-65 | the constructor builds the default control record in place |
| Metadata.BuildMetadataPacketsDistinct | src/app/metadata.h:71-191 | no packet type is bound twice in `build_metadata` |
| Metadata.BuildMetadataTypesMatch | src/app/metadata.h:19-61 | every parameter's element type matches the `Config` field it points at, `wifi_mode` through a `uint8_t` view |
| Metadata.FixedStringsSized | src/app/metadata.h:133-182 | every fixed string is bound with length `CONFIG_STRING_SIZE` |
| Metadata.TopicsOnlyPowerAndNightMode | src/app/metadata.h:73-123 | only `power` and `night_mode.enabled` carry MQTT topics, each with both an in and an out topic |
| Metadata.OnlyDataUnbound | src/app/metadata.h:183-189 | exactly the `data` members lack a packet type |
| Metadata.PwmFacts | src/app/poly_meta.h:42-53 | the PWM table binds PWM_CONTROL_PIN and PWM_CONTROL_PERIOD distinctly with matching types |
| Metadata.AnalogFacts | src/app/poly_meta.h:55-66 | the analog table binds ANALOG_SENSOR_PIN and ANALOG_SENSOR_RESOLUTION with matching types |
| Metadata.Dsx18Facts | src/app/poly_meta.h:68-83 | the DS18 table binds the pin, resolution and parasite types with matching types |
| Metadata.RegisteredWellFormed | src/app/poly_meta.h:22-83 | with either sensor variant, everything registered (each holder visiting exactly its table) has distinct packet types and matching types |
| App.Activity | src/app/application.cpp:123 | the state is ACTIVE exactly when powered and not in night mode, otherwise INACTIVE |
| App.SensorVariantFor | src/app/application.cpp:35-45 | type DSX18X selects the DS18 variant, any other code the analog variant |
| App.SensorMetaFor | src/app/application.cpp:37-43 | the DS18 variant gets the DS18 table, the analog variant the analog table |
| App.RegistrationWellFormed | src/app/application.cpp:103-107 | what `_setup` visits has distinct packet types and matching types for every sensor type |
| App.PacketMapSound | src/app/application.cpp:98-100 | the parameter→packet map holds exactly the visited parameters that carry a packet type, each with its own type |
| App.DataMembersUnregistered | src/app/application.cpp:109-114 | the `data` members are not in the map; they are registered separately |
| App.Runtime.constructor | src/app/application.cpp:210 | a fresh ring has 128 zero slots and index 0 |
| App.Runtime.Record | src/app/application.cpp:198-215 | stores the readings, writes the sample at the old index and advances it modulo 128 |
| App.Application.constructor | src/app/application.cpp:35-71 | selects the variant, registers the parameters, starts in INITIALIZATION; the PWM output is built from the stored control block and begun (timed for duty 0, pin low, stamped now), the DS18 sensor takes its configuration from the sensor block, and the analog sensor's scale is `MaxValue` of the block's resolution |
| App.CollectPackets | src/app/application.cpp:82-106 | visiting the entries in order leaves exactly the packet map of those entries |
| App.Application.Setup | src/app/application.cpp:74-120 | the map is the packet map of everything registered; nothing else changes |
| App.Application.ChangeState | src/app/application.cpp:181-185 | records the state and its time |
| App.Application.Load | src/app/application.cpp:122-138 | state per `Activity`; integral zeroed when inactive; the PID settings copied from the config |
| App.Application.HandlePropertyChange | src/app/application.cpp:162-174 | an unregistered parameter changes nothing; a registered one reloads (state by activity, integral zeroed when inactive, PID settings copied from the configuration) and saves once, refreshing night mode only for the night-mode packet types |
| App.Application.BootstrapStateChanged | src/app/application.cpp:228-238 | INITIALIZING → INITIALIZATION; the first READY → ACTIVE or INACTIVE by power; otherwise nothing changes |
| App.Application.ReadSensor | src/app/application.cpp:192-197 | reads either variant; the DS18 latch is consumed by a successful read and the stored reading is kept |
| App.Application.Step | src/app/application.cpp:192-215 | no value: ring, readings and PID state unchanged; else output is the PID output when ACTIVE and 0 otherwise, clamped into the control, and the ring gets one write; an ACTIVE step with a value leaves the integral `compute` produced, every other step leaves the PID state as it was; the PWM phases, phase start, pin state and pin log and the DS18 reading are left as they were |
| App.Application.Drive | src/app/application.cpp:200-215 | with a reading: the PID state takes the integral `compute` left only while ACTIVE, the output is the PID output when ACTIVE and 0 otherwise, the control takes its clamp, and the ring records the reading and output at its old index |
| App.Application.Compute | src/app/application.cpp:202 | `compute` leaves the given integral and keeps the setpoint, gains, interval and direction `_load` wrote; nothing else in the application changes |
| App.Application.ServiceLoop | src/app/application.cpp:187-220 | inside the interval (u32 subtraction) nothing changes, the PID state included; otherwise the compute time is stamped and one `Step` happens, so only an ACTIVE step with a reading moves the PID integral; the PID settings never change; either way the PWM timing state and the DS18 reading are untouched |
| ConsoleConfig.ParseSensorBlock | www/src/config.js:117-133 | at most one variant key: "analog" exactly for type 0, "dsx18x" exactly for type 1, holding the fields the firmware's sensor unpacks from the same block |
| ConsoleConfig.ParseControlBlock | www/src/config.js:135-145 | at most one variant key: "pwm" exactly for type 0, holding the pin and u16 period the firmware's control unpacks from the same block |
| ConsoleConfig.DecodeSensor | www/src/config.js:48-53 | a sensor record decodes exactly when 1025 bytes remain, with a 1024-byte block |
| ConsoleConfig.DecodeControl | www/src/config.js:55-60 | a control record decodes exactly when 1025 bytes remain |
| ConsoleConfig.DecodePid | www/src/config.js:62-71 | the PID group decodes exactly when 19 bytes remain |
| ConsoleConfig.DecodeNightMode | www/src/config.js:73-77 | the night-mode group decodes exactly when 9 bytes remain |
| ConsoleConfig.DecodeSysConfig | www/src/config.js:80-97 | the system group decodes exactly when 208 bytes remain |
| ConsoleConfig.DecodeConfig | www/src/config.js:45-98 | `parse` succeeds exactly when 2287 bytes remain and consumes them |
| ConsoleConfig.DecodeConfigGroups | www/src/config.js:45-98 | each group is decoded at its offset in packed order |
| ConsoleConfig.DecodeHistoryPoints | www/src/config.js:106-112 | n pairs decode exactly when 8n bytes remain, yielding n points |
| ConsoleConfig.DecodeHistory | www/src/config.js:100-115 | `entries.length == count` after 4 + 8·count bytes, and fails when fewer remain |
| ConsoleConfig.DecodeState | www/src/config.js:147-153 | two floats, then the history decoded at offset 8 |
| ConsoleConfig.ListsMatchDevice | www/src/config.js:21-33 | the sensorType codes are {0, 1} and the controlType codes {0}, the device's enum codes, and a block parses to a variant exactly for a listed code |
| ConsoleConfig.Config.constructor | www/src/config.js:18-34 | nothing parsed yet, the three enum lists declared |
| ConsoleConfig.Config.ParseSensor | www/src/config.js:117-133 | `sensor.parsed` becomes the block's variant, nothing else changes |
| ConsoleConfig.Config.ParseControl | www/src/config.js:135-145 | `control.parsed` becomes the block's variant, nothing else changes |
| ConsoleConfig.Config.Parse | www/src/config.js:45-98 | each field is set to its group's decode when the buffer reaches that group, and left as it was once a read runs out |
| ConsoleConfig.Config.ParseHistory | www/src/config.js:100-115 | the loop yields the pure history decode and leaves the cursor at its end |
| ConsoleConfig.Config.ParseState | www/src/config.js:147-153 | yields the pure state decode |
| ConsoleConfig.ParsePid | www/src/config.js:62-71 | the PID reads yield the pure decode and advance 19 bytes |
| ConsoleConfig.ParseNightMode | www/src/config.js:73-77 | the night-mode reads yield the pure decode and advance 9 bytes |
| ConsoleConfig.ParseSysConfig | www/src/config.js:80-97 | the system reads yield the pure decode and advance 208 bytes |
| ConsoleConfig.ParseHistoryPoints | www/src/config.js:107-112 | the loop yields the pure decode of n pairs |
| ChartControl.DecodeChartHistory | www/src/control/chart.js:38-51 | `entries.length == count` after 4 + 12·count bytes, and fails when fewer remain |
| ChartControl.ReadSamples | www/src/control/chart.js:45-51 | n triples decode exactly when 12n bytes remain |
| ChartControl.GetOrderedEntries | www/src/control/chart.js:83-93 | the loop returns the NaN-filtered rotation from `index` |
| ChartControl.ParseSamples | www/src/control/chart.js:45-51 | the loop yields the pure decode of n triples |
| ChartControl.Chart.SetValue | www/src/control/chart.js:35-55 | a missing value or a short buffer leaves the data; otherwise the data is the decoded history |
| ChartControl.Chart.Plot | www/src/control/chart.js:70 | at most `count` entries, each with a non-NaN sensor and control |
| HistoryChartControl.DecodeHistoryFrame | www/src/control/history_chart.js:28-42 | u16 count, two floats, u16 index, count triples: 12 + 12·count bytes |
| HistoryChartControl.SeriesOf | www/src/control/history_chart.js:56-61 | the four series all have the length of the ordered entries |
| HistoryChartControl.FrameSeriesDrawable | www/src/control/history_chart.js:44-61 | at most `count` points, non-NaN sensor and control, a constant target line, integrals drawn from the frame |
| HistoryChartControl.CleanFrameDrawnInFull | www/src/control/history_chart.js:44-61 | with no NaN sample every slot is drawn, in rotation order |
| HistoryChartControl.ParseFrame | www/src/control/history_chart.js:28-42 | the reads yield the pure frame decode |
| HistoryChartControl.HistoryChart.constructor | www/src/control/history_chart.js:6-23 | no data and no sensor hints; control axis suggested 0..1 |
| HistoryChartControl.HistoryChart.SetValue | www/src/control/history_chart.js:25-70 | a missing value or a short frame changes nothing; otherwise the sensor hints are the frame's min/max and the data is the frame's series with the configured target (0 when absent) |
| History.Rotation | www/src/control/chart.js:85-87 | slot i of the rotation is `entries[(index + i) % count]`, for every index |
| History.Filter | www/src/control/chart.js:88-90 | a subsequence of kept entries only |
| History.FilterAll | www/src/control/chart.js:88-90 | the filter keeps everything exactly when every entry is kept |
| History.OrderedBounds | www/src/control/chart.js:83-93 | at most `count` entries, each an input entry that passes |
| History.OrderedIsRotation | www/src/control/chart.js:85-91 | with no NaN entry the result is the rotation |
| History.RotationExample | www/src/control/chart.js:85-91 | count 4, index 2, [A,B,C,D] gives [C,D,A,B] |
| History.Write | src/app/application.cpp:210-215 | the sample lands at the old index, every other slot is kept, index becomes (old+1) % 128 |
| History.RotationAfterWrite | src/app/application.cpp:210-215 | after a write the rotation drops its oldest slot and ends with the new sample |
| History.RotationAfterWrites | src/app/application.cpp:210-215 | after any run of writes the rotation is the last `count` of the old rotation followed by the samples |
| History.ShownAfterFullRing | www/src/control/chart.js:83-93 | after at least 128 writes the console shows the non-NaN samples among the last 128, oldest first, newest last |
| History.ShownFromEmptyRing | www/src/control/chart.js:83-93 | from a ring of unplottable slots, fewer than 128 writes show all non-NaN samples written |
| Props.PropertyCmdsDistinct | www/src/props.js:18-115 | no packet type is named by two entries |
| Props.PropertyConfigConsistent | www/src/props.js:40-110 | bounds ordered, fixed strings sized 32, lists declared in the console, and every kind the decoder's read for that key |
| Props.ResolutionBounds | www/src/props.js:55-60 | the resolution bounds are 8..14 and 9..12 |
| Props.PropertyConfigVisibility | www/src/props.js:53-73 | every `visibleIf` names a "skip" key of its own section |
| Props.StripZeros | www/src/props.js:7-9 | the backwards scan removes a suffix of '0's and stops at a non-'0' |
| Props.FixFloat | www/src/props.js:3-15 | the loop computes `FixFloatSpec` |
| Props.FixFloatShape | www/src/props.js:11-14 | never empty; "0" when only '0's and at most one '.' remain; otherwise the shortest prefix whose removed suffix is '0's optionally after one '.', which determines the result |
| Props.FixFloatExamples | www/src/props.js:3-15 | "1.5000" → "1.5", "10.0000" → "10", "0.0000" → "0" |
| Contract.DecodeConfigPacked | www/src/config.js:45-98 | wherever a packed `Config` lies, the console decodes it to its view and consumes 2287 bytes |
| Contract.ConfigRoundTrip | src/app/config.h:85-92 | decoding the packed `Config` gives every field back, the variants parsed from their blocks, strings up to their NUL |
| Contract.TruncatedConfigRefused | www/src/config.js:45-98 | one byte short, the decode fails instead of reading past the end |
| Contract.DefaultConfigDecoded | src/app/config.h:52-65 | the default config decodes to dsx18x{2,10,false}, pwm{0,500}, interval 1000, not reversed, night mode off 0..36000, mDNS "esp_pid" |
| Contract.AnalogBlockParsed | www/src/config.js:121-125 | a block starting with a packed analog configuration shows exactly its pin and resolution under "analog" |
| Contract.Dsx18BlockParsed | www/src/config.js:126-131 | a block starting with a packed DS18 configuration shows exactly its pin, resolution and parasite flag under "dsx18x" |
| Contract.PwmBlockParsed | www/src/config.js:139-144 | a block starting with a packed PWM configuration shows exactly its pin and period under "pwm" |
| Contract.RuntimeInfoLacksHistory | src/app/config.h:94-97 | the 8-byte `RuntimeInfo` is refused by the console's state decoder |
| Contract.StateRoundTrip | www/src/config.js:147-153 | the readings followed by the ring decode to those readings and that ring |
| Contract.HistoryRoundTrip | www/src/config.js:100-115 | the ring in the history layout decodes to its count, index and points |
| Contract.PointsFilter | www/src/control/chart.js:88 | converting samples to console points commutes with the NaN filter |
| Contract.DeviceHistoryShown | src/app/application.cpp:210-215 | from boot, reconstruction after n writes is the non-NaN samples among the last 128, or the remaining zero slots followed by the non-NaN samples when fewer than 128 were written |
| Contract.HistoryShownOnConsole | www/src/config.js:100-115 | through the wire, the decoded ring has 128 slots and reconstructs to the device's reconstruction |
| Contract.VisibleIsParsedKey | www/src/props.js:53-61 | the visibility the command theorem assumes is the console's: an entry is shown exactly when the key its `visibleIf` names is in what `#parseSensor` produced |
| Contract.ConsoleCommandsBound | www/src/props.js:18-115 | every command a visible console field sends is registered by the device with a matching wire kind, for every sensor type |
| Contract.Dsx18Bound | src/app/poly_meta.h:68-83 | with the DS18 variant the three DS18 commands are registered with matching kinds |
| Contract.AnalogBound | src/app/poly_meta.h:55-66 | with the analog variant the two analog commands are registered with matching kinds |

## Findings

| source | as written | input that shows it | evidently intended | confidence | as-written member | corrected member |
|---|---|---|---|---|---|---|
| src/app/config.h:94-97 | `RuntimeInfo`, the `state` data request's payload, holds only the two readings | any `RuntimeInfo`: its 8 bytes end where `#parseState` starts reading the history count | the readings followed by the history ring that src/app/application.cpp:210-215 writes into `_runtime_info.history` | not executed; inferred from the two files' field lists | Contract.RuntimeInfoLacksHistory | Contract.StateRoundTrip |

## Left out

- I/O and plumbing: LittleFS, the bootstrap, WebSocket and MQTT registration calls, NTP, timers, pin setup and `digitalWrite` (the PWM pin write is a log of states).
- The night-mode manager: its verdict is a parameter of `Load` and `HandlePropertyChange`; `_night_mode_manager->update()` is counted, not modelled.
- `millis()`: the current time is a parameter of every operation that reads it.
- Pwm.PwmControl.Update: reads the clock once per call, as its parameter `now`; src/controls/pwm_control.cpp:24, :27 and :43 call `millis()` up to twice in one update (once for the elapsed-time test, again in `set_state`), so the model stamps the phase change with the time of the test, not a possibly later reading.
- The uPID library: `compute`, the setters and the `/ 255` scaling; the PID output and the integral `compute` leaves are parameters of `Step` and `ServiceLoop`, the rest of uPID's internal state is not modelled, and the initial PID state is a constructor argument.
- The GyverDS18 library and the polling in `update_value` (`Dsx18.DSx18Sensor.Deliver` takes the read's outcome as arguments).
- AnalogSensor `get_value` (a float division of `analogRead`): the reading is a parameter of `Step`.
- Float arithmetic: values are bit patterns; only NaN-ness, a few constants and the clamp are interpreted. `Pwm.OnTime` truncates the exact real product `value · period`, not a rounded float product.
- The `toFixed(4)` step of `fix_float`: `Props.FixFloat` takes the formatted string.
- Chart scaling, drawing and `render`; `setConfig`, `window.__app`; history_chart.js calls `this.config` and `setConfig`, which chart.js does not define, so `HistoryChartControl.HistoryChart` holds its own fields.
- The async `Config.load` ordering and transport constants.
- `BinaryParser` and `AppConfigBase` internals: a read past the end yields `None` and the parse stops there.
- The numeric packet-type codes: `Protocol.PacketType` is an enumeration, and the night-mode range test assumes the three night-mode codes are consecutive.
- Contract.HistoryRoundTrip: covers rings below 256 slots with an index below 256 (the device's ring has 128), not every u16 count.
- Contract.HistoryAt: the same bound, below 256 slots and an index below 256.
- Contract.StateRoundTrip: the same bound, below 256 slots and an index below 256.
- Analog.AnalogSensor.Begin: requires a resolution of 1..31, since outside it `2 << (resolution - 1)` is undefined in C++; the firmware never checks the stored byte, and the console's 8..14 is only a widget bound.
- App.Application.constructor: requires the same 1..31 analog resolution when the analog variant is selected, for the same reason.
- The three history wire shapes (config.js pairs, chart.js triples, history_chart.js framed triples) are each decoded as written; only the config.js shape is tied to the device ring, since the device's `HISTORY_DATA` serialiser is not part of this model. src/app/application.cpp:111 also registers `_metadata->data.history` as that notification's source, but `DataConfigMeta` (src/app/metadata.h:40-46) declares no `history` member, so, like `RuntimeInfo.history`, it names a field the declarations lack; the model registers only the declared data members.
- The sensor section's apply button is keyed `apply_control_config` and the control section's `apply_sensor_config`; button handlers are not part of this model.
- `WIFI_MODE` comes from a networking library not part of this model; the default Wi-Fi mode, SSID, password and MQTT credentials are parameters (`DeviceConfig.BuildDefaults`).
- src/app/application.h:25 declares `_sensor` as a DSx18Sensor pointer while `begin` also stores an AnalogSensor; the model holds either variant (`dsx18` is null for the analog one).
