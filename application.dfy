/**
 * The firmware application: the activity decision, the PID service loop
 * with its interval gate and history ring, the property-change dispatch,
 * the reaction to bootstrap state changes, and the registration of every
 * bound parameter under its packet type.
 *
 * The clock, the PID library's output and the night-mode manager's verdict
 * are parameters of the operations that read them.
 */
module App {
  import opened Wrappers
  import opened Float32
  import opened Wire
  import P = Protocol
  import DC = DeviceConfig
  import M = Metadata
  import Dsx18
  import Analog
  import Pwm
  import History

  datatype AppState = Uninitialized | Initialization | Active | Inactive

  /** The bootstrap states the application reacts to; every other state is `OtherState`. */
  datatype BootstrapState = Initializing | Ready | OtherState

  /** One history slot: the sensor reading and the control output of one PID step. */
  datatype HistoryEntry = HistoryEntry(sensor: f32, control: f32)

  /** The regulator's settings and its integral term, as the application sets them. */
  datatype PidState = PidState(setpoint: f32, kp: f32, ki: f32, kd: f32, dt: bv16, reverse: bool, integral: f32)

  datatype SensorVariant = Dsx18Variant | AnalogVariant

  /** The regulator runs only while powered and outside the night-mode window. */
  function Activity(power: bool, nightActive: bool): (s: AppState)
    ensures s == Active || s == Inactive
    ensures s == Active <==> power && !nightActive
  {
    if power && !nightActive then Active else Inactive
  }

  /** Only the DSX18X code selects the DS18 variant; every other code selects the analog one. */
  function SensorVariantFor(sensorType: byte): (v: SensorVariant)
    ensures v == Dsx18Variant <==> sensorType == DC.SensorTypeDsx18x
  {
    if sensorType == DC.SensorTypeDsx18x then Dsx18Variant else AnalogVariant
  }

  function SensorMetaFor(v: SensorVariant): (h: M.MetaHolder)
    ensures h.table == M.Dsx18SensorMeta() || h.table == M.AnalogSensorMeta()
    ensures h.table == M.Dsx18SensorMeta() <==> v == Dsx18Variant
  {
    if v == Dsx18Variant then M.MetaHolder(M.Dsx18SensorMeta()) else M.MetaHolder(M.AnalogSensorMeta())
  }

  /** Whatever the sensor type byte, the registered tables bind distinct packet types
      to members of matching types. */
  lemma RegistrationWellFormed(sensorType: byte)
    ensures M.PacketsDistinct(M.Registered(SensorMetaFor(SensorVariantFor(sensorType))))
    ensures M.TypesMatch(M.Registered(SensorMetaFor(SensorVariantFor(sensorType))))
  {
    M.RegisteredWellFormed(SensorMetaFor(SensorVariantFor(sensorType)));
  }

  /** `_parameter_to_packet` after visiting `entries` in order: each entry with a packet
      type binds its member to it. */
  function PacketMap(entries: seq<M.MetaEntry>): map<M.Target, P.PacketType> {
    if |entries| == 0 then map[]
    else
      var m := PacketMap(entries[..|entries| - 1]);
      var e := entries[|entries| - 1];
      if e.packetType.Some? then m[e.target := e.packetType.value] else m
  }

  /** The registration loop of _setup over one run of entries. */
  method CollectPackets(entries: seq<M.MetaEntry>) returns (registered: map<M.Target, P.PacketType>)
    ensures registered == PacketMap(entries)
  {
    registered := map[];
    var i := 0;
    while i < |entries|
      invariant 0 <= i <= |entries|
      invariant registered == PacketMap(entries[..i])
    {
      var e := entries[i];
      assert entries[..i + 1][..i] == entries[..i];
      if e.packetType.Some? {
        registered := registered[e.target := e.packetType.value];
      }
      i := i + 1;
    }
    assert entries[..|entries|] == entries;
  }

  /** A member is registered exactly when some entry binds it to a packet type, and it
      is registered under one of the packet types it is bound to. */
  lemma {:induction false} PacketMapSound(entries: seq<M.MetaEntry>)
    ensures forall k :: k in PacketMap(entries) <==>
      exists i :: 0 <= i < |entries| && entries[i].target == k && entries[i].packetType.Some?
    ensures forall k :: k in PacketMap(entries) ==>
      exists i :: 0 <= i < |entries| && entries[i].target == k && entries[i].packetType == Some(PacketMap(entries)[k])
  {
    if |entries| > 0 {
      var front := entries[..|entries| - 1];
      PacketMapSound(front);
      forall k ensures k in PacketMap(entries) <==>
        exists i :: 0 <= i < |entries| && entries[i].target == k && entries[i].packetType.Some?
      {
        if k in PacketMap(front) {
          var i :| 0 <= i < |front| && front[i].target == k && front[i].packetType.Some?;
          assert entries[i] == front[i];
        }
        if i :| 0 <= i < |entries| && entries[i].target == k && entries[i].packetType.Some? {
          if i < |front| {
            assert front[i] == entries[i];
          }
        }
      }
      forall k | k in PacketMap(entries)
        ensures exists i :: 0 <= i < |entries| && entries[i].target == k && entries[i].packetType == Some(PacketMap(entries)[k])
      {
        var last := |entries| - 1;
        if entries[last].packetType.Some? && entries[last].target == k {
          assert entries[last].packetType == Some(PacketMap(entries)[k]);
        } else {
          var i :| 0 <= i < |front| && front[i].target == k && front[i].packetType == Some(PacketMap(front)[k]);
          assert entries[i] == front[i];
        }
      }
    }
  }

  /** The `data.*` members are never registered as parameters: a change to them is ignored. */
  lemma DataMembersUnregistered(sensorType: byte, d: M.DataField)
    ensures M.DataMember(d) !in PacketMap(M.Registered(SensorMetaFor(SensorVariantFor(sensorType))))
  {
    var h := SensorMetaFor(SensorVariantFor(sensorType));
    var base := M.BuildMetadata();
    var entries := M.Registered(h);
    PacketMapSound(entries);
    M.OnlyDataUnbound();
    forall i | 0 <= i < |entries| && entries[i].target == M.DataMember(d)
      ensures entries[i].packetType.None?
    {
      if i < |base| {
        assert entries[i] == base[i];
      }
    }
  }

  /** _runtime_info as the service loop updates it: the last reading and output, and the
      history ring both are written to. */
  class Runtime {
    var sensorValue: f32
    var controlValue: f32
    const entries: array<HistoryEntry>
    var index: nat

    ghost predicate Valid()
      reads this
    {
      entries.Length == History.HistoryCount && index < History.HistoryCount
    }

    /** The ring as the console will read it. */
    ghost function Ring(): History.Ring<HistoryEntry>
      reads this, entries
    {
      History.Ring(entries[..], index)
    }

    /** Zero-initialised, as a value-initialised C++ struct is. */
    constructor ()
      ensures Valid() && fresh(entries)
      ensures sensorValue == Zero && controlValue == Zero && index == 0
      ensures forall k :: 0 <= k < entries.Length ==> entries[k] == HistoryEntry(Zero, Zero)
    {
      sensorValue := Zero;
      controlValue := Zero;
      entries := new HistoryEntry[History.HistoryCount](_ => HistoryEntry(Zero, Zero));
      index := 0;
    }

    /** Records one PID step: the sample goes to the slot at `index`, which then advances
        modulo HISTORY_COUNT. */
    method Record(value: f32, out: f32)
      requires Valid()
      modifies this, entries
      ensures Valid()
      ensures sensorValue == value && controlValue == out
      ensures Ring() == History.Write(old(Ring()), HistoryEntry(value, out))
    {
      sensorValue := value;
      controlValue := out;
      entries[index] := HistoryEntry(value, out);
      index := (index + 1) % History.HistoryCount;
    }
  }

  class Application {
    /** The persisted configuration; parameters write into it before notifying a change. */
    var config: DC.Config
    var state: AppState
    var stateChangeTime: bv32
    var lastPidCompute: bv32
    var initialized: bool
    const runtime: Runtime
    var pid: PidState
    const sensorVariant: SensorVariant
    const dsx18: Dsx18.DSx18Sensor?
    const analog: Analog.AnalogSensor?
    const control: Pwm.PwmControl
    var parameterToPacket: map<M.Target, P.PacketType>
    /** How often the configuration was saved and the night-mode manager refreshed. */
    var saves: nat
    var nightModeRefreshes: nat

    ghost predicate Valid()
      reads this, runtime, control
    {
      runtime.Valid() &&
      (sensorVariant == Dsx18Variant <==> dsx18 != null) &&
      (sensorVariant == AnalogVariant <==> analog != null) &&
      control.Valid()
    }

    /** `has_value` of the selected sensor: the DS18 latch, or always for the analog input. */
    predicate SensorReady()
      reads this, dsx18
    {
      dsx18 != null ==> dsx18.hasValue
    }

    /** begin: the sensor variant chosen by the configured type, the PWM output started, every
        bound parameter registered, and the state INITIALIZATION. */
    constructor (config: DC.Config, now: bv32, initialPid: PidState)
      requires SensorVariantFor(config.regulator.sensor.sensorType) == AnalogVariant ==>
        1 <= config.regulator.sensor.data[1] as int <= 31
      ensures Valid()
      ensures this.config == config && sensorVariant == SensorVariantFor(config.regulator.sensor.sensorType)
      ensures state == Initialization && stateChangeTime == now
      ensures !initialized && lastPidCompute == 0
      ensures runtime.sensorValue == Zero && runtime.controlValue == Zero && runtime.index == 0
      ensures forall k :: 0 <= k < runtime.entries.Length ==> runtime.entries[k] == HistoryEntry(Zero, Zero)
      ensures parameterToPacket == PacketMap(M.Registered(SensorMetaFor(sensorVariant)))
      ensures control.config == Pwm.Unpack(config.regulator.control.data) && control.Timed()
      ensures control.value == Zero && !control.state && control.stateChangeTime == now && control.pinLog == []
      ensures dsx18 != null ==>
        dsx18.config == Dsx18.Unpack(config.regulator.sensor.data) && !dsx18.hasValue && dsx18.lastValue == Zero
      ensures analog != null ==>
        analog.config == Analog.Unpack(config.regulator.sensor.data) &&
        analog.maxValue == Analog.MaxValue(analog.config.resolution as int)
    {
      this.config := config;
      state := Uninitialized;
      stateChangeTime := 0;
      lastPidCompute := 0;
      initialized := false;
      runtime := new Runtime();
      pid := initialPid;
      var variant := SensorVariantFor(config.regulator.sensor.sensorType);
      sensorVariant := variant;
      if variant == Dsx18Variant {
        dsx18 := new Dsx18.DSx18Sensor(config.regulator.sensor.data);
        analog := null;
      } else {
        dsx18 := null;
        var a := new Analog.AnalogSensor(config.regulator.sensor.data);
        a.Begin();
        analog := a;
      }
      var c := new Pwm.PwmControl(config.regulator.control.data);
      c.Begin(now);
      control := c;
      parameterToPacket := map[];
      saves := 0;
      nightModeRefreshes := 0;
      new;
      Setup();
      ChangeState(Initialization, now);
    }

    /** _setup: visits the base tables, then the sensor's, then the control's, recording
        the packet type of every bound member. */
    method Setup()
      modifies this
      ensures parameterToPacket == PacketMap(M.Registered(SensorMetaFor(sensorVariant)))
      ensures config == old(config) && state == old(state) && stateChangeTime == old(stateChangeTime)
      ensures lastPidCompute == old(lastPidCompute) && initialized == old(initialized)
      ensures pid == old(pid)
      ensures saves == old(saves) && nightModeRefreshes == old(nightModeRefreshes)
    {
      parameterToPacket := CollectPackets(M.Registered(SensorMetaFor(sensorVariant)));
    }

    method ChangeState(s: AppState, now: bv32)
      modifies this
      ensures state == s && stateChangeTime == now
      ensures config == old(config) && lastPidCompute == old(lastPidCompute) && initialized == old(initialized)
      ensures pid == old(pid) && parameterToPacket == old(parameterToPacket)
      ensures saves == old(saves) && nightModeRefreshes == old(nightModeRefreshes)
    {
      stateChangeTime := now;
      state := s;
    }

    /** _load: ACTIVE exactly when powered outside night mode; an inactive regulator loses its
        integral; the PID settings are taken from the configuration. */
    method Load(nightActive: bool, now: bv32)
      modifies this
      ensures state == Activity(config.power, nightActive) && stateChangeTime == now
      ensures pid.integral == if state == Active then old(pid.integral) else Zero
      ensures var c := config.regulator.pid;
        pid.setpoint == c.target && pid.kp == c.p && pid.ki == c.i && pid.kd == c.d &&
        pid.dt == c.interval && pid.reverse == c.reverse
      ensures config == old(config) && lastPidCompute == old(lastPidCompute) && initialized == old(initialized)
      ensures parameterToPacket == old(parameterToPacket)
      ensures saves == old(saves) && nightModeRefreshes == old(nightModeRefreshes)
    {
      var active := config.power && !nightActive;
      if !active {
        pid := pid.(integral := Zero);
      }
      ChangeState(if active then Active else Inactive, now);
      var c := config.regulator.pid;
      pid := pid.(setpoint := c.target, kp := c.p, ki := c.i, kd := c.d, dt := c.interval, reverse := c.reverse);
    }

    /** _handle_property_change: a parameter never registered changes nothing; a registered one
        reloads (with `Load`'s effect on the state and the PID), refreshes night mode only for
        the night-mode packet types, and saves. */
    method HandlePropertyChange(param: M.Target, nightActive: bool, now: bv32)
      modifies this
      ensures param !in old(parameterToPacket) ==>
        state == old(state) && stateChangeTime == old(stateChangeTime) && pid == old(pid) &&
        saves == old(saves) && nightModeRefreshes == old(nightModeRefreshes)
      ensures param in old(parameterToPacket) ==>
        state == Activity(config.power, nightActive) && stateChangeTime == now &&
        saves == old(saves) + 1 &&
        nightModeRefreshes == old(nightModeRefreshes) + (if P.InNightModeRange(old(parameterToPacket)[param]) then 1 else 0)
      ensures param in old(parameterToPacket) ==>
        pid.integral == (if state == Active then old(pid.integral) else Zero)
      ensures param in old(parameterToPacket) ==> var c := config.regulator.pid;
        pid.setpoint == c.target && pid.kp == c.p && pid.ki == c.i && pid.kd == c.d &&
        pid.dt == c.interval && pid.reverse == c.reverse
      ensures config == old(config) && lastPidCompute == old(lastPidCompute) && initialized == old(initialized)
      ensures parameterToPacket == old(parameterToPacket)
    {
      if param !in parameterToPacket {
        return;
      }
      Load(nightActive, now);
      var packet := parameterToPacket[param];
      if P.InNightModeRange(packet) {
        nightModeRefreshes := nightModeRefreshes + 1;
      }
      saves := saves + 1;
    }

    /** React to the bootstrap: INITIALIZING restarts initialization; the first READY makes
        the regulator ACTIVE or INACTIVE by the power flag; anything else is ignored. */
    method BootstrapStateChanged(s: BootstrapState, now: bv32)
      modifies this
      ensures s == Initializing ==>
        state == Initialization && stateChangeTime == now && initialized == old(initialized)
      ensures s == Ready && !old(initialized) ==>
        initialized && state == Activity(config.power, false) && stateChangeTime == now
      ensures (s == Ready && old(initialized)) || s == OtherState ==>
        state == old(state) && stateChangeTime == old(stateChangeTime) && initialized == old(initialized)
      ensures config == old(config) && lastPidCompute == old(lastPidCompute) && pid == old(pid)
      ensures parameterToPacket == old(parameterToPacket)
      ensures saves == old(saves) && nightModeRefreshes == old(nightModeRefreshes)
    {
      if s == Initializing {
        ChangeState(Initialization, now);
      } else if s == Ready && !initialized {
        initialized := true;
        ChangeState(if config.power then Active else Inactive, now);
      }
    }

    /** The selected sensor's has_value, then get_value when it has one. */
    method ReadSensor(analogReading: f32) returns (ready: bool, value: f32)
      modifies dsx18
      ensures ready == old(SensorReady())
      ensures ready ==> value == if dsx18 != null then old(dsx18.lastValue) else analogReading
      ensures dsx18 != null ==> dsx18.hasValue == (old(dsx18.hasValue) && !ready)
      ensures dsx18 != null ==> dsx18.lastValue == old(dsx18.lastValue)
    {
      ready := true;
      value := analogReading;
      if dsx18 != null {
        ready := dsx18.HasValue();
        if ready {
          value := dsx18.GetValue();
        }
      }
    }

    /** The body of a PID step once the interval has passed: with a reading, the output (the
        PID's while ACTIVE, 0 otherwise) goes to the PWM and both land in the ring; without one,
        nothing changes. `pidOutput` and `pidIntegral` are what uPID's `compute` returns and the
        integral it leaves; only an ACTIVE step with a reading runs it. */
    method Step(analogReading: f32, pidOutput: f32, pidIntegral: f32)
      requires Valid()
      modifies this, runtime, runtime.entries, control, dsx18
      ensures Valid()
      ensures config == old(config) && state == old(state) && stateChangeTime == old(stateChangeTime)
      ensures lastPidCompute == old(lastPidCompute) && initialized == old(initialized)
      ensures parameterToPacket == old(parameterToPacket)
      ensures saves == old(saves) && nightModeRefreshes == old(nightModeRefreshes)
      ensures old(SensorReady()) && state == Active ==> pid == old(pid).(integral := pidIntegral)
      ensures !(old(SensorReady()) && state == Active) ==> pid == old(pid)
      ensures !old(SensorReady()) ==>
        runtime.Ring() == old(runtime.Ring()) &&
        runtime.sensorValue == old(runtime.sensorValue) && runtime.controlValue == old(runtime.controlValue) &&
        control.value == old(control.value) && (dsx18 != null ==> dsx18.hasValue == old(dsx18.hasValue))
      ensures old(SensorReady()) ==>
        runtime.sensorValue == (if dsx18 != null then old(dsx18.lastValue) else analogReading) &&
        runtime.controlValue == (if state == Active then pidOutput else Zero) &&
        control.value == Clamp01(runtime.controlValue) &&
        runtime.Ring() == History.Write(old(runtime.Ring()), HistoryEntry(runtime.sensorValue, runtime.controlValue)) &&
        (dsx18 != null ==> !dsx18.hasValue)
      ensures control.currentValue == old(control.currentValue) && control.state == old(control.state)
      ensures control.pinLog == old(control.pinLog)
      ensures control.onTime == old(control.onTime) && control.offTime == old(control.offTime)
      ensures control.stateChangeTime == old(control.stateChangeTime)
      ensures dsx18 != null ==> dsx18.lastValue == old(dsx18.lastValue)
    {
      var ready, value := ReadSensor(analogReading);
      if ready {
        Drive(value, pidOutput, pidIntegral);
      }
    }

    /** A step with a reading `value`: while ACTIVE the PID runs and its output is used,
        otherwise the output is 0; the PWM takes the output and the ring records both. */
    method Drive(value: f32, pidOutput: f32, pidIntegral: f32)
      requires Valid()
      modifies this, runtime, runtime.entries, control
      ensures Valid()
      ensures config == old(config) && state == old(state) && stateChangeTime == old(stateChangeTime)
      ensures lastPidCompute == old(lastPidCompute) && initialized == old(initialized)
      ensures parameterToPacket == old(parameterToPacket)
      ensures saves == old(saves) && nightModeRefreshes == old(nightModeRefreshes)
      ensures pid == if state == Active then old(pid).(integral := pidIntegral) else old(pid)
      ensures runtime.sensorValue == value
      ensures runtime.controlValue == (if state == Active then pidOutput else Zero)
      ensures control.value == Clamp01(runtime.controlValue)
      ensures runtime.Ring() == History.Write(old(runtime.Ring()), HistoryEntry(value, runtime.controlValue))
      ensures control.currentValue == old(control.currentValue) && control.state == old(control.state)
      ensures control.pinLog == old(control.pinLog)
      ensures control.onTime == old(control.onTime) && control.offTime == old(control.offTime)
      ensures control.stateChangeTime == old(control.stateChangeTime)
    {
      var out := Zero;
      if state == Active {
        out := pidOutput;
        Compute(pidIntegral);
      }
      control.SetValue(out);
      runtime.Record(value, out);
    }

    /** The part of uPID's `compute` the application can see: the integral it leaves behind.
        The settings `_load` wrote are kept. */
    method Compute(pidIntegral: f32)
      modifies this
      ensures pid == old(pid).(integral := pidIntegral)
      ensures config == old(config) && state == old(state) && stateChangeTime == old(stateChangeTime)
      ensures lastPidCompute == old(lastPidCompute) && initialized == old(initialized)
      ensures parameterToPacket == old(parameterToPacket)
      ensures saves == old(saves) && nightModeRefreshes == old(nightModeRefreshes)
    {
      pid := pid.(integral := pidIntegral);
    }

    /** _service_loop at `now`. Inside the PID interval (unsigned 32-bit elapsed time) nothing
        changes; otherwise the step is stamped and taken. */
    method ServiceLoop(now: bv32, analogReading: f32, pidOutput: f32, pidIntegral: f32)
      requires Valid()
      modifies this, runtime, runtime.entries, control, dsx18
      ensures Valid()
      ensures config == old(config) && state == old(state) && stateChangeTime == old(stateChangeTime)
      ensures initialized == old(initialized) && parameterToPacket == old(parameterToPacket)
      ensures pid.setpoint == old(pid.setpoint) && pid.kp == old(pid.kp) && pid.ki == old(pid.ki)
      ensures pid.kd == old(pid.kd) && pid.dt == old(pid.dt) && pid.reverse == old(pid.reverse)
      ensures saves == old(saves) && nightModeRefreshes == old(nightModeRefreshes)
      ensures (now - old(lastPidCompute)) as int < config.regulator.pid.interval as int ==>
        lastPidCompute == old(lastPidCompute) && pid == old(pid) &&
        runtime.Ring() == old(runtime.Ring()) &&
        runtime.sensorValue == old(runtime.sensorValue) && runtime.controlValue == old(runtime.controlValue) &&
        control.value == old(control.value) && (dsx18 != null ==> dsx18.hasValue == old(dsx18.hasValue))
      ensures (now - old(lastPidCompute)) as int >= config.regulator.pid.interval as int ==>
        lastPidCompute == now &&
        pid == (if old(SensorReady()) && state == Active then old(pid).(integral := pidIntegral) else old(pid)) &&
        (!old(SensorReady()) ==>
          runtime.Ring() == old(runtime.Ring()) &&
          runtime.sensorValue == old(runtime.sensorValue) && runtime.controlValue == old(runtime.controlValue) &&
          control.value == old(control.value) && (dsx18 != null ==> dsx18.hasValue == old(dsx18.hasValue))) &&
        (old(SensorReady()) ==>
          runtime.sensorValue == (if dsx18 != null then old(dsx18.lastValue) else analogReading) &&
          runtime.controlValue == (if state == Active then pidOutput else Zero) &&
          control.value == Clamp01(runtime.controlValue) &&
          runtime.Ring() == History.Write(old(runtime.Ring()), HistoryEntry(runtime.sensorValue, runtime.controlValue)) &&
          (dsx18 != null ==> !dsx18.hasValue))
      ensures control.currentValue == old(control.currentValue) && control.state == old(control.state)
      ensures control.pinLog == old(control.pinLog)
      ensures control.onTime == old(control.onTime) && control.offTime == old(control.offTime)
      ensures control.stateChangeTime == old(control.stateChangeTime)
      ensures dsx18 != null ==> dsx18.lastValue == old(dsx18.lastValue)
    {
      if ((now - lastPidCompute) as int) < config.regulator.pid.interval as int {
        return;
      }
      lastPidCompute := now;
      Step(analogReading, pidOutput, pidIntegral);
    }
  }
}
