/**
  The orchestrator (controller/control/control.go): it instantiates devices
  from a configuration through a registry of type tags, answers web commands
  and relays readings and actor changes to the equipment. This module holds
  the state, the configuration loading and the web-command handler.
 */
module Control {
  import opened Values
  import opened Strings
  import opened Properties
  import Devices
  import Actors
  import Equipment
  import Buzzers
  import opened Configuration

  // ---------------------------------------------------------------------------
  // Registry and property conversion
  // ---------------------------------------------------------------------------

  /** The concrete device types a registry can name. */
  datatype DeviceKind =
    | TempSensorKind | DummyTempSensorKind
    | DummyRelayKind | SimpleRelayKind | SimpleSsrKind
    | SimpleRimmKind
    | ActiveBuzzerKind | DummyBuzzerKind

  /** Type tag to device type; reflect.New on the type becomes the Build
      functions below. */
  type Registry = map<string, DeviceKind>

  predicate IsSensorKind(k: DeviceKind) { k == TempSensorKind || k == DummyTempSensorKind }

  predicate IsActorKind(k: DeviceKind) { k == DummyRelayKind || k == SimpleRelayKind || k == SimpleSsrKind }

  predicate IsEquipmentKind(k: DeviceKind) { k == SimpleRimmKind }

  predicate IsBuzzerKind(k: DeviceKind) { k == ActiveBuzzerKind || k == DummyBuzzerKind }

  function ActorKindOf(k: DeviceKind): Actors.ActorKind
    requires IsActorKind(k)
  {
    match k
    case DummyRelayKind => Actors.DummyRelay
    case SimpleRelayKind => Actors.SimpleRelay
    case SimpleSsrKind => Actors.SimpleSSR
  }

  /** toValueInterface: a "uint" property is parsed as a decimal uint64 (the
      largest uint64 when its leading digits overflow, else 0 when it is not
      a number); every other type keeps the raw string. */
  function ToValueInterface(typeTag: string, value: string): (v: Value)
    ensures typeTag == "uint" <==> v.VUint?
    ensures typeTag != "uint" ==> v == VStr(value)
    ensures typeTag == "uint" && DecimalValue(DigitRun(value)) > MaxUint64 ==> v == VUint(MaxUint64)
    ensures typeTag == "uint" && DecimalValue(DigitRun(value)) <= MaxUint64 && !IsDecimal(value) ==> v == VUint(0)
    ensures typeTag == "uint" && IsDecimal(value) && DecimalValue(value) <= MaxUint64 ==> v == VUint(DecimalValue(value))
  {
    if typeTag == "string" then VStr(value)
    else if typeTag == "uint" then VUint(ParseUint64(value))
    else VStr(value)
  }

  /** A uint written in decimal comes back as the same number. */
  lemma UintValueRoundTrip(n: Uint64)
    ensures ToValueInterface("uint", NatToDecimal(n)) == VUint(n)
  {
    ParseFormatRoundTrip(n);
  }

  /** toProperty: every field is copied and the value is converted by type. */
  function ToProperty(pc: PropertyConfig): (p: Property)
    ensures p.name == pc.name && p.propType == pc.typeTag && p.hidden == pc.hidden
    ensures p.comment == pc.comment && p.choice == pc.choice
    ensures p.value == ToValueInterface(pc.typeTag, pc.value)
  {
    Property(pc.name, pc.typeTag, pc.hidden, pc.choice, ToValueInterface(pc.typeTag, pc.value), pc.comment)
  }

  /** toProperties: the configured properties converted one by one, in order. */
  function ToProperties(pcs: seq<PropertyConfig>): (ps: seq<Property>)
    ensures |ps| == |pcs| && forall i :: 0 <= i < |pcs| ==> ps[i] == ToProperty(pcs[i])
  {
    seq(|pcs|, i requires 0 <= i < |pcs| => ToProperty(pcs[i]))
  }

  /** The last configured property with a name. */
  function LastConfig(pcs: seq<PropertyConfig>, name: string): Option<PropertyConfig>
  {
    if |pcs| == 0 then None
    else if pcs[|pcs| - 1].name == name then Some(pcs[|pcs| - 1])
    else LastConfig(pcs[..|pcs| - 1], name)
  }

  /** Converting a list commutes with picking the last entry of a name. */
  lemma {:induction false} LastNamedAfterConversion(pcs: seq<PropertyConfig>, name: string)
    ensures LastNamed(ToProperties(pcs), name)
      == (if LastConfig(pcs, name).Some? then Some(ToProperty(LastConfig(pcs, name).value)) else None)
  {
    if |pcs| > 0 {
      assert ToProperties(pcs)[..|pcs| - 1] == ToProperties(pcs[..|pcs| - 1]);
      LastNamedAfterConversion(pcs[..|pcs| - 1], name);
    }
  }

  /** No configured property of that name is typed "uint". */
  predicate StringTyped(pcs: seq<PropertyConfig>, name: string)
  {
    forall i :: 0 <= i < |pcs| ==> pcs[i].name == name ==> pcs[i].typeTag != "uint"
  }

  lemma {:induction false} LastConfigIn(pcs: seq<PropertyConfig>, name: string)
    ensures LastConfig(pcs, name).Some? ==>
      LastConfig(pcs, name).value.name == name && LastConfig(pcs, name).value in pcs
    ensures LastConfig(pcs, name).None? ==> forall i :: 0 <= i < |pcs| ==> pcs[i].name != name
  {
    if |pcs| > 0 {
      LastConfigIn(pcs[..|pcs| - 1], name);
      if pcs[|pcs| - 1].name != name && LastConfig(pcs[..|pcs| - 1], name).None? {
        assert forall i :: 0 <= i < |pcs| - 1 ==> pcs[..|pcs| - 1][i] == pcs[i];
      }
    }
  }

  /** A property never typed "uint" converts to a string, so Go's string
      assertions on it hold; a property configured at all is present. */
  lemma StringTypedConverts(pcs: seq<PropertyConfig>, name: string)
    requires StringTyped(pcs, name)
    ensures StringIfPresent(ToProperties(pcs), name) && StringOrNil(ToProperties(pcs), name)
    ensures (exists i :: 0 <= i < |pcs| && pcs[i].name == name) ==> name in Names(ToProperties(pcs))
  {
    LastNamedAfterConversion(pcs, name);
    LastConfigIn(pcs, name);
  }

  // ---------------------------------------------------------------------------
  // Instantiation
  // ---------------------------------------------------------------------------

  /** A sensor as far as this model sees it: its type and its device. The
      sensor drivers themselves are not part of this model. */
  datatype Sensor = Sensor(kind: DeviceKind, dev: Devices.Device)

  /** The properties a configured entry hands to its device's Init. */
  function PropsOf(e: DeviceConfig): seq<Property>
  {
    ToProperties(e.properties)
  }

  /** What each Init asserts about the properties it is given. */
  predicate SensorReady(k: DeviceKind, e: DeviceConfig) {
    IsSensorKind(k) && StringOrNil(PropsOf(e), "Name")
  }

  predicate ActorReady(k: DeviceKind, e: DeviceConfig) {
    IsActorKind(k) && StringOrNil(PropsOf(e), "Name") && StringIfPresent(PropsOf(e), "GPIO")
  }

  predicate EquipmentReady(k: DeviceKind, e: DeviceConfig) {
    IsEquipmentKind(k) && StringOrNil(PropsOf(e), "Name")
  }

  predicate BuzzerReady(k: DeviceKind, e: DeviceConfig) {
    IsBuzzerKind(k) && StringOrNil(PropsOf(e), "Name") && (k == ActiveBuzzerKind ==> StringOrNil(PropsOf(e), "GPIO"))
  }

  function BuildSensor(k: DeviceKind, e: DeviceConfig): Sensor
    requires SensorReady(k, e)
  {
    Sensor(k, Devices.Init(PropsOf(e)))
  }

  /** `pins` are the GPIO names the host's registry knows. */
  function BuildActor(pins: set<string>, k: DeviceKind, e: DeviceConfig): Actors.Actor
    requires ActorReady(k, e)
  {
    Actors.Init(ActorKindOf(k), PropsOf(e), pins)
  }

  function BuildEquipment(k: DeviceKind, e: DeviceConfig): Equipment.Equipment
    requires EquipmentReady(k, e)
  {
    Equipment.InitEquipment(PropsOf(e))
  }

  function BuildBuzzer(pins: set<string>, k: DeviceKind, e: DeviceConfig): Buzzers.Buzzer
    requires BuzzerReady(k, e)
  {
    if k == ActiveBuzzerKind then Buzzers.Init(PropsOf(e), pins) else Buzzers.DummyInit(PropsOf(e))
  }

  /** The names of the entries whose type tag is registered. */
  function RegisteredNames(reg: Registry, entries: seq<DeviceConfig>): set<string>
  {
    set i | 0 <= i < |entries| && entries[i].typeTag in reg :: entries[i].name
  }

  lemma RegisteredNamesSnoc(reg: Registry, entries: seq<DeviceConfig>)
    requires |entries| > 0
    ensures var e := entries[|entries| - 1];
      RegisteredNames(reg, entries)
        == RegisteredNames(reg, entries[..|entries| - 1]) + (if e.typeTag in reg then {e.name} else {})
  {
    var init := entries[..|entries| - 1];
    forall n | n in RegisteredNames(reg, entries)
      ensures n in RegisteredNames(reg, init) || n == entries[|entries| - 1].name
    {
      var i :| 0 <= i < |entries| && entries[i].typeTag in reg && entries[i].name == n;
      if i < |init| {
        assert init[i] == entries[i];
      }
    }
    forall n | n in RegisteredNames(reg, init)
      ensures n in RegisteredNames(reg, entries)
    {
      var i :| 0 <= i < |init| && init[i].typeTag in reg && init[i].name == n;
      assert entries[i] == init[i];
    }
  }

  /** Entry `i` is registered and no later registered entry has its name. */
  predicate IsLastRegistered(reg: Registry, entries: seq<DeviceConfig>, i: int)
  {
    && 0 <= i < |entries| && entries[i].typeTag in reg
    && forall j :: i < j < |entries| && entries[j].typeTag in reg ==> entries[j].name != entries[i].name
  }

  /** One instantiation loop: every entry whose type tag is registered is
      built and stored under its name, in order; other entries are skipped. */
  function Instantiate<T>(reg: Registry, m: map<string, T>, entries: seq<DeviceConfig>,
                          build: (DeviceKind, DeviceConfig) --> T): (r: map<string, T>)
    requires forall i :: 0 <= i < |entries| && entries[i].typeTag in reg ==> build.requires(reg[entries[i].typeTag], entries[i])
    ensures r.Keys == m.Keys + RegisteredNames(reg, entries)
    ensures forall i :: IsLastRegistered(reg, entries, i) ==> r[entries[i].name] == build(reg[entries[i].typeTag], entries[i])
    ensures forall n :: n in m && n !in RegisteredNames(reg, entries) ==> r[n] == m[n]
  {
    if |entries| == 0 then m
    else
      var init := entries[..|entries| - 1];
      var e := entries[|entries| - 1];
      var prev := Instantiate(reg, m, init, build);
      RegisteredNamesSnoc(reg, entries);
      if e.typeTag in reg then
        var v := build(reg[e.typeTag], e);
        InstantiateLast(reg, entries, build, prev, v);
        prev[e.name := v]
      else
        InstantiateSkip(reg, entries, build, prev);
        prev
  }

  /** A registered last entry, stored over the map built from the others,
      is the last registered entry with its name. */
  lemma InstantiateLast<T>(reg: Registry, entries: seq<DeviceConfig>, build: (DeviceKind, DeviceConfig) --> T,
                           prev: map<string, T>, v: T)
    requires |entries| > 0 && entries[|entries| - 1].typeTag in reg
    requires forall i :: 0 <= i < |entries| && entries[i].typeTag in reg ==> build.requires(reg[entries[i].typeTag], entries[i])
    requires v == build(reg[entries[|entries| - 1].typeTag], entries[|entries| - 1])
    requires var init := entries[..|entries| - 1];
      forall i :: IsLastRegistered(reg, init, i) ==> init[i].name in prev && prev[init[i].name] == build(reg[init[i].typeTag], init[i])
    ensures var r := prev[entries[|entries| - 1].name := v];
      forall i :: IsLastRegistered(reg, entries, i) ==> r[entries[i].name] == build(reg[entries[i].typeTag], entries[i])
  {
    var n := |entries| - 1;
    var init := entries[..n];
    var r := prev[entries[n].name := v];
    forall i | IsLastRegistered(reg, entries, i) ensures r[entries[i].name] == build(reg[entries[i].typeTag], entries[i]) {
      if i < n {
        assert IsLastRegistered(reg, init, i) && init[i] == entries[i];
        assert entries[i].name != entries[n].name;
      }
    }
  }

  /** An unregistered last entry leaves the last registered entries as they were. */
  lemma InstantiateSkip<T>(reg: Registry, entries: seq<DeviceConfig>, build: (DeviceKind, DeviceConfig) --> T,
                           prev: map<string, T>)
    requires |entries| > 0 && entries[|entries| - 1].typeTag !in reg
    requires forall i :: 0 <= i < |entries| && entries[i].typeTag in reg ==> build.requires(reg[entries[i].typeTag], entries[i])
    requires var init := entries[..|entries| - 1];
      forall i :: IsLastRegistered(reg, init, i) ==> init[i].name in prev && prev[init[i].name] == build(reg[init[i].typeTag], init[i])
    ensures forall i :: IsLastRegistered(reg, entries, i) ==> prev[entries[i].name] == build(reg[entries[i].typeTag], entries[i])
  {
    var n := |entries| - 1;
    var init := entries[..n];
    forall i | IsLastRegistered(reg, entries, i) ensures prev[entries[i].name] == build(reg[entries[i].typeTag], entries[i]) {
      assert IsLastRegistered(reg, init, i) && init[i] == entries[i];
    }
  }

  predicate AllPinsBound(m: map<string, Actors.Actor>) {
    forall n :: n in m ==> Actors.PinBound(m[n])
  }

  /** Every wired actor entry names a GPIO the host's registry knows. */
  predicate Wireable(reg: Registry, actors: seq<DeviceConfig>, pins: set<string>)
  {
    forall i :: 0 <= i < |actors| && actors[i].typeTag in reg && IsActorKind(reg[actors[i].typeTag]) ==>
      (Actors.Wired(ActorKindOf(reg[actors[i].typeTag])) ==> Actors.GpioKnown(PropsOf(actors[i]), pins))
  }

  /** Instantiating actors whose wired entries name known GPIOs keeps every
      pin bound. */
  lemma InstantiateBindsPins(reg: Registry, pins: set<string>, m: map<string, Actors.Actor>, entries: seq<DeviceConfig>)
    requires forall i :: 0 <= i < |entries| && entries[i].typeTag in reg ==> ActorReady(reg[entries[i].typeTag], entries[i])
    requires Wireable(reg, entries, pins) && AllPinsBound(m)
    ensures AllPinsBound(Instantiate(reg, m, entries, (k, e) requires ActorReady(k, e) => BuildActor(pins, k, e)))
  {
    var build := (k, e) requires ActorReady(k, e) => BuildActor(pins, k, e);
    var r := Instantiate(reg, m, entries, build);
    forall n | n in r ensures Actors.PinBound(r[n]) {
      if n in RegisteredNames(reg, entries) {
        var i := LastRegisteredOf(reg, entries, n);
        Actors.InitBindsPin(ActorKindOf(reg[entries[i].typeTag]), PropsOf(entries[i]), pins);
      }
    }
  }

  /** A registered name has a last registered entry. */
  lemma LastRegisteredOf(reg: Registry, entries: seq<DeviceConfig>, n: string) returns (i: nat)
    requires n in RegisteredNames(reg, entries)
    ensures IsLastRegistered(reg, entries, i) && entries[i].name == n
  {
    var j :| 0 <= j < |entries| && entries[j].typeTag in reg && entries[j].name == n;
    i := j;
    while i + 1 < |entries| && exists k :: i < k < |entries| && entries[k].typeTag in reg && entries[k].name == n
      invariant 0 <= i < |entries| && entries[i].typeTag in reg && entries[i].name == n
      decreases |entries| - i
    {
      var k :| i < k < |entries| && entries[k].typeTag in reg && entries[k].name == n;
      i := k;
    }
  }

  // ---------------------------------------------------------------------------
  // The controller
  // ---------------------------------------------------------------------------

  datatype Control = Control(
    registry: Registry,
    dummy: bool,
    configFile: string,
    sensors: map<string, Sensor>,
    actors: map<string, Actors.Actor>,
    equipment: map<string, Equipment.Equipment>,
    buzzers: map<string, Buzzers.Buzzer>,
    sensorValues: map<string, Float>)

  /** Every wired actor has its pin, so On and Off cannot panic. */
  predicate PinsBound(c: Control) {
    forall n :: n in c.actors ==> Actors.PinBound(c.actors[n])
  }

  /** InitController: the registry, flag and file name are kept and every
      device map and the reading map start empty. */
  function InitController(reg: Registry, fileName: string, isDummy: bool): (c: Control)
    ensures c.registry == reg && c.dummy == isDummy && c.configFile == fileName
    ensures c.sensors == map[] && c.actors == map[] && c.equipment == map[] && c.buzzers == map[]
    ensures c.sensorValues == map[]
    ensures PinsBound(c)
  {
    Control(reg, isDummy, fileName, map[], map[], map[], map[], map[])
  }

  /** Every registered entry of a list can be built by its list's Init. */
  predicate Loadable(reg: Registry, config: BrewController)
  {
    && (forall i :: 0 <= i < |config.sensors| && config.sensors[i].typeTag in reg ==>
          SensorReady(reg[config.sensors[i].typeTag], config.sensors[i]))
    && (forall i :: 0 <= i < |config.actors| && config.actors[i].typeTag in reg ==>
          ActorReady(reg[config.actors[i].typeTag], config.actors[i]))
    && (forall i :: 0 <= i < |config.equipment| && config.equipment[i].typeTag in reg ==>
          EquipmentReady(reg[config.equipment[i].typeTag], config.equipment[i]))
    && (forall i :: 0 <= i < |config.buzzers| && config.buzzers[i].typeTag in reg ==>
          BuzzerReady(reg[config.buzzers[i].typeTag], config.buzzers[i]))
  }

  /** The four instantiation loops of SetDefaultConfiguration. */
  function SetConfiguration(c: Control, config: BrewController, pins: set<string>): (r: Control)
    requires Loadable(c.registry, config)
    ensures r.sensors.Keys == c.sensors.Keys + RegisteredNames(c.registry, config.sensors)
    ensures r.actors.Keys == c.actors.Keys + RegisteredNames(c.registry, config.actors)
    ensures r.equipment.Keys == c.equipment.Keys + RegisteredNames(c.registry, config.equipment)
    ensures r.buzzers.Keys == c.buzzers.Keys + RegisteredNames(c.registry, config.buzzers)
    ensures forall i :: IsLastRegistered(c.registry, config.actors, i) ==>
      r.actors[config.actors[i].name] == Actors.Init(ActorKindOf(c.registry[config.actors[i].typeTag]), PropsOf(config.actors[i]), pins)
    ensures forall i :: IsLastRegistered(c.registry, config.equipment, i) ==>
      r.equipment[config.equipment[i].name] == Equipment.InitEquipment(PropsOf(config.equipment[i]))
    ensures forall i :: IsLastRegistered(c.registry, config.sensors, i) ==>
      r.sensors[config.sensors[i].name] == Sensor(c.registry[config.sensors[i].typeTag], Devices.Init(PropsOf(config.sensors[i])))
    ensures forall i :: IsLastRegistered(c.registry, config.buzzers, i) ==>
      r.buzzers[config.buzzers[i].name] == BuildBuzzer(pins, c.registry[config.buzzers[i].typeTag], config.buzzers[i])
    ensures r.registry == c.registry && r.dummy == c.dummy && r.configFile == c.configFile
    ensures r.sensorValues == c.sensorValues
  {
    var buildActor := (k, e) requires ActorReady(k, e) => BuildActor(pins, k, e);
    var buildBuzzer := (k, e) requires BuzzerReady(k, e) => BuildBuzzer(pins, k, e);
    c.(sensors := Instantiate(c.registry, c.sensors, config.sensors, BuildSensor),
       actors := Instantiate(c.registry, c.actors, config.actors, buildActor),
       equipment := Instantiate(c.registry, c.equipment, config.equipment, BuildEquipment),
       buzzers := Instantiate(c.registry, c.buzzers, config.buzzers, buildBuzzer))
  }

  /** Loading keeps every actor's pin bound when each wired entry names a
      GPIO the host knows. */
  lemma LoadBindsPins(c: Control, config: BrewController, pins: set<string>)
    requires Loadable(c.registry, config) && Wireable(c.registry, config.actors, pins) && PinsBound(c)
    ensures PinsBound(SetConfiguration(c, config, pins))
  {
    InstantiateBindsPins(c.registry, pins, c.actors, config.actors);
  }

  /** The relay and SSR GPIO names SetDefaultConfiguration passes on. */
  const RelayGpios: seq<string> := ["GPIO21", "GPIO20"]
  const SsrGpios: seq<string> := ["GPIO16"]

  /** The configuration SetDefaultConfiguration builds; the 1-Wire bus is
      only scanned (for `adrs`) outside dummy mode. */
  function DefaultFor(c: Control, adrs: seq<Uint64>): BrewController
  {
    DefaultConfiguration(if c.dummy then [] else adrs, RelayGpios, SsrGpios, c.dummy).0
  }

  /** SetDefaultConfiguration: builds the default configuration and loads it.
      Writing it to the configuration file is not modelled. */
  function SetDefaultConfiguration(c: Control, adrs: seq<Uint64>, pins: set<string>): (r: Control)
    requires Loadable(c.registry, DefaultFor(c, adrs))
    ensures r.actors.Keys == c.actors.Keys + RegisteredNames(c.registry, DefaultRelayConfig(RelayGpios, SsrGpios, c.dummy))
    ensures r.sensors.Keys == c.sensors.Keys + RegisteredNames(c.registry, DefaultSensorConfig(if c.dummy then [] else adrs, c.dummy))
    ensures r.equipment.Keys == c.equipment.Keys + RegisteredNames(c.registry, DefaultEquipment(c.dummy))
    ensures r.buzzers.Keys == c.buzzers.Keys + RegisteredNames(c.registry, DefaultBuzzerConfig(c.dummy))
    ensures r.registry == c.registry && r.sensorValues == c.sensorValues
  {
    SetConfiguration(c, DefaultFor(c, adrs), pins)
  }

  // ---------------------------------------------------------------------------
  // Web commands
  // ---------------------------------------------------------------------------

  datatype WebCmd = CmdSetRelay | CmdRelayOn | CmdRelayOff | CmdGetSensorValue | CmdGetActorValue | CmdOtherWeb(code: int)

  datatype ServerCommand = ServerCommand(cmd: WebCmd, deviceName: string, value: string)

  /** The controller afterwards, the reply sent back (if any) and the pin writes. */
  datatype WebReply = WebReply(ctrl: Control, reply: Option<string>, writes: seq<PinWrite>)

  function StateWord(a: Actors.Actor): string
  {
    if Actors.GetState(a) == Actors.StateOn then "ON" else "OFF"
  }

  /** Switches a present actor and stores it back. */
  function Switch(c: Control, name: string, on: bool): (r: WebReply)
    requires PinsBound(c) && name in c.actors
    ensures PinsBound(r.ctrl) && r.ctrl.actors.Keys == c.actors.Keys
    ensures r.ctrl == c.(actors := r.ctrl.actors)
    ensures forall n :: n in c.actors && n != name ==> r.ctrl.actors[n] == c.actors[n]
    ensures r.ctrl.actors[name] == (if on then Actors.On(c.actors[name]) else Actors.Off(c.actors[name])).actor
    ensures r.reply == None
    ensures r.writes == (if on then Actors.On(c.actors[name]) else Actors.Off(c.actors[name])).writes
  {
    var step := if on then Actors.On(c.actors[name]) else Actors.Off(c.actors[name]);
    Actors.StateFollowsLastCommand(c.actors[name], [on]);
    assert Actors.Apply(c.actors[name], [on]).actor == step.actor;
    WebReply(c.(actors := c.actors[name := step.actor]), None, step.writes)
  }

  /** HandleWebMessage: exactly one reply per command. SetRelay switches a
      known actor on for the value "ON" and off otherwise and reports the
      resulting state; RelayOn and RelayOff acknowledge whether or not the
      actor exists; the two queries report "bad" for an unknown name; any
      other command is "Unknown". Only the named actor can change. */
  function HandleWebMessage(c: Control, msg: ServerCommand, format: Float -> string): (r: WebReply)
    requires PinsBound(c)
    ensures r.reply.Some? && PinsBound(r.ctrl)
    ensures r.ctrl == c.(actors := r.ctrl.actors) && r.ctrl.actors.Keys == c.actors.Keys
    ensures forall n :: n in c.actors && n != msg.deviceName ==> r.ctrl.actors[n] == c.actors[n]
    ensures msg.cmd == CmdSetRelay && msg.deviceName in c.actors ==>
      && r.ctrl.actors[msg.deviceName] == (if msg.value == "ON" then Actors.On(c.actors[msg.deviceName])
                                          else Actors.Off(c.actors[msg.deviceName])).actor
      && r.reply == Some(StateWord(r.ctrl.actors[msg.deviceName]))
      && r.writes == (if msg.value == "ON" then Actors.On(c.actors[msg.deviceName])
                      else Actors.Off(c.actors[msg.deviceName])).writes
    ensures msg.cmd == CmdRelayOn && msg.deviceName in c.actors ==>
      && r.ctrl.actors[msg.deviceName] == Actors.On(c.actors[msg.deviceName]).actor
      && r.writes == Actors.On(c.actors[msg.deviceName]).writes
    ensures msg.cmd == CmdRelayOff && msg.deviceName in c.actors ==>
      && r.ctrl.actors[msg.deviceName] == Actors.Off(c.actors[msg.deviceName]).actor
      && r.writes == Actors.Off(c.actors[msg.deviceName]).writes
    ensures (msg.cmd.CmdSetRelay? || msg.cmd.CmdRelayOn? || msg.cmd.CmdRelayOff?) && msg.deviceName !in c.actors ==>
      r == WebReply(c, Some("ack"), [])
    ensures (msg.cmd.CmdRelayOn? || msg.cmd.CmdRelayOff?) ==> r.reply == Some("ack")
    ensures msg.cmd == CmdGetSensorValue ==>
      && r.ctrl == c && r.writes == []
      && r.reply == Some(if msg.deviceName in c.sensorValues then format(c.sensorValues[msg.deviceName]) else "bad")
    ensures msg.cmd == CmdGetActorValue ==>
      && r.ctrl == c && r.writes == []
      && r.reply == Some(if msg.deviceName in c.actors then StateWord(c.actors[msg.deviceName]) else "bad")
    ensures msg.cmd.CmdOtherWeb? ==> r == WebReply(c, Some("Unknown"), [])
  {
    var name := msg.deviceName;
    match msg.cmd
    case CmdSetRelay =>
      if name in c.actors then
        var s := Switch(c, name, msg.value == "ON");
        s.(reply := Some(StateWord(s.ctrl.actors[name])))
      else WebReply(c, Some("ack"), [])
    case CmdRelayOn =>
      if name in c.actors then Switch(c, name, true).(reply := Some("ack")) else WebReply(c, Some("ack"), [])
    case CmdRelayOff =>
      if name in c.actors then Switch(c, name, false).(reply := Some("ack")) else WebReply(c, Some("ack"), [])
    case CmdGetSensorValue =>
      WebReply(c, Some(if name in c.sensorValues then format(c.sensorValues[name]) else "bad"), [])
    case CmdGetActorValue =>
      WebReply(c, Some(if name in c.actors then StateWord(c.actors[name]) else "bad"), [])
    case CmdOtherWeb(_) =>
      WebReply(c, Some("Unknown"), [])
  }

  /** Every reply is one of the fixed words or a formatted reading. */
  lemma ReplyVocabulary(c: Control, msg: ServerCommand, format: Float -> string)
    requires PinsBound(c)
    ensures var r := HandleWebMessage(c, msg, format).reply.value;
      r in {"ON", "OFF", "ack", "bad", "Unknown"} ||
      (msg.cmd == CmdGetSensorValue && msg.deviceName in c.sensorValues && r == format(c.sensorValues[msg.deviceName]))
  {
  }

  /** A relay switched by SetRelay reports the same word to GetActorValue,
      and a switching actor reports "ON" exactly when it was set to "ON". */
  lemma SetRelayThenQuery(c: Control, name: string, value: string, format: Float -> string)
    requires PinsBound(c) && name in c.actors && Actors.Switching(c.actors[name].kind)
    ensures var set1 := HandleWebMessage(c, ServerCommand(CmdSetRelay, name, value), format);
      var get := HandleWebMessage(set1.ctrl, ServerCommand(CmdGetActorValue, name, ""), format);
      && get.reply == set1.reply
      && set1.reply == Some(if value == "ON" then "ON" else "OFF")
  {
  }
}
