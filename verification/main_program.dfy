/**
  The controller program's own entry point (controller/controller.go): a
  registry literal of eight type tags, the default configuration loaded
  through it, and a web-command handler that maps "_" to " " in device
  names and only ever answers sensor queries. The state it works on has the
  same shape as the orchestrator's, so the Control type is reused.
 */
module MainProgram {
  import opened Values
  import opened Strings
  import opened Properties
  import Devices
  import Actors
  import Equipment
  import Buzzers
  import opened Configuration
  import opened Control

  /** The registry main builds: exactly these eight tags. */
  const MainRegistry: Registry := map[
    "TempSensor" := TempSensorKind,
    "DummyTempSensor" := DummyTempSensorKind,
    "DummyRelay" := DummyRelayKind,
    "SimpleRelay" := SimpleRelayKind,
    "SimpleSSR" := SimpleSsrKind,
    "SimpleRIMM" := SimpleRimmKind,
    "ActiveBuzzer" := ActiveBuzzerKind,
    "DummyBuzzer" := DummyBuzzerKind]

  /** The file name main's flag defaults to. */
  const DefaultConfigFile: string := "configuration.xml"

  // ---------------------------------------------------------------------------
  // Loading the default configuration
  // ---------------------------------------------------------------------------

  /** No property of the entry but "Address" is typed "uint", so every other
      property converts to a string. */
  predicate OnlyAddressUint(e: DeviceConfig)
  {
    forall i :: 0 <= i < |e.properties| ==> e.properties[i].typeTag == "uint" ==> e.properties[i].name == "Address"
  }

  /** PropValue and LastConfig pick the same entry. */
  lemma {:induction false} PropValueIsLastConfig(props: seq<PropertyConfig>, name: string)
    ensures PropValue(props, name) == (if LastConfig(props, name).Some? then Some(LastConfig(props, name).value.value) else None)
  {
    if |props| > 0 {
      PropValueIsLastConfig(props[..|props| - 1], name);
    }
  }

  /** Such an entry satisfies every string assertion Init makes. */
  lemma EntryIsReady(e: DeviceConfig)
    requires OnlyAddressUint(e)
    ensures StringOrNil(PropsOf(e), "Name") && StringIfPresent(PropsOf(e), "GPIO") && StringOrNil(PropsOf(e), "GPIO")
    ensures (exists i :: 0 <= i < |e.properties| && e.properties[i].name == "GPIO") ==> "GPIO" in Names(PropsOf(e))
  {
    StringTypedConverts(e.properties, "Name");
    StringTypedConverts(e.properties, "GPIO");
  }

  /** An entry whose "Name" property holds its own name builds a device of
      that name. */
  lemma EntryNamesDevice(e: DeviceConfig)
    requires OnlyAddressUint(e) && PropValue(e.properties, "Name") == Some(e.name)
    ensures StringOrNil(PropsOf(e), "Name")
    ensures Devices.Init(PropsOf(e)).devName == e.name
  {
    ConfiguredName(e);
  }

  /** The name the converted properties give is the configured one. */
  lemma ConfiguredName(e: DeviceConfig)
    requires OnlyAddressUint(e) && PropValue(e.properties, "Name") == Some(e.name)
    ensures StringOrNil(PropsOf(e), "Name") && Devices.NameOf(PropsOf(e)) == e.name
  {
    PropValueIsLastConfig(e.properties, "Name");
    LastConfigIn(e.properties, "Name");
    LastNamedAfterConversion(e.properties, "Name");
    var pc := LastConfig(e.properties, "Name").value;
    var i :| 0 <= i < |e.properties| && e.properties[i] == pc;
    assert pc.typeTag != "uint";
    assert ToProperty(pc).value == VStr(pc.value);
  }

  /** A configured "GPIO" converts to a string, so the actor built from the
      entry knows its pin exactly when the host knows the configured name. */
  lemma EntryGpio(e: DeviceConfig, pins: set<string>)
    requires OnlyAddressUint(e) && PropValue(e.properties, "GPIO").Some?
    ensures Actors.GpioKnown(PropsOf(e), pins) <==> PropValue(e.properties, "GPIO").value in pins
  {
    PropValueIsLastConfig(e.properties, "GPIO");
    LastConfigIn(e.properties, "GPIO");
    LastNamedAfterConversion(e.properties, "GPIO");
    var pc := LastConfig(e.properties, "GPIO").value;
    var i :| 0 <= i < |e.properties| && e.properties[i] == pc;
    assert pc.typeTag != "uint";
    assert ToProperty(pc).value == VStr(pc.value);
  }

  /** An entry without a "Name" property builds a device called "Unknown". */
  lemma EntryWithoutName(e: DeviceConfig)
    requires PropValue(e.properties, "Name") == None
    ensures StringOrNil(PropsOf(e), "Name")
    ensures Devices.Init(PropsOf(e)).devName == "Unknown"
  {
    PropValueIsLastConfig(e.properties, "Name");
    LastNamedAfterConversion(e.properties, "Name");
  }

  /** Sensor entries main's registry can build. */
  predicate SensorEntries(s: seq<DeviceConfig>)
  {
    forall i :: 0 <= i < |s| ==>
      && (s[i].typeTag == "TempSensor" || s[i].typeTag == "DummyTempSensor")
      && OnlyAddressUint(s[i])
  }

  /** Actor entries main's registry can build, each naming itself and, when
      wired, its GPIO. */
  predicate ActorEntries(a: seq<DeviceConfig>)
  {
    forall i :: 0 <= i < |a| ==>
      && a[i].typeTag in MainRegistry && IsActorKind(MainRegistry[a[i].typeTag])
      && OnlyAddressUint(a[i]) && PropValue(a[i].properties, "Name") == Some(a[i].name)
      && (Actors.Wired(ActorKindOf(MainRegistry[a[i].typeTag])) ==> PropValue(a[i].properties, "GPIO").Some?)
  }

  lemma DefaultSensorsTyped(adrs: seq<Uint64>, dummy: bool)
    ensures SensorEntries(DefaultSensorConfig(adrs, dummy))
  {
    var s := DefaultSensorConfig(adrs, dummy);
    forall i | 0 <= i < |s|
      ensures (s[i].typeTag == "TempSensor" || s[i].typeTag == "DummyTempSensor") && OnlyAddressUint(s[i])
    {
      if !dummy && i < |adrs| {
        assert s[i] == TempSensor(i + 1, adrs[i]);
      }
    }
  }

  lemma DefaultActorsTyped(dummy: bool)
    ensures ActorEntries(DefaultRelayConfig(RelayGpios, SsrGpios, dummy))
  {
    var a := DefaultRelayConfig(RelayGpios, SsrGpios, dummy);
    forall i | 0 <= i < |a|
      ensures && a[i].typeTag in MainRegistry && IsActorKind(MainRegistry[a[i].typeTag])
              && OnlyAddressUint(a[i]) && PropValue(a[i].properties, "Name") == Some(a[i].name)
              && (Actors.Wired(ActorKindOf(MainRegistry[a[i].typeTag])) ==> PropValue(a[i].properties, "GPIO").Some?)
    {
      DefaultActorTyped(dummy, i);
    }
  }

  /** One default actor entry, as ActorEntries asks. */
  lemma DefaultActorTyped(dummy: bool, i: nat)
    requires i < |RelayGpios| + |SsrGpios| + 4
    ensures var e := DefaultRelayConfig(RelayGpios, SsrGpios, dummy)[i];
      && e.typeTag in MainRegistry && IsActorKind(MainRegistry[e.typeTag])
      && OnlyAddressUint(e) && PropValue(e.properties, "Name") == Some(e.name)
      && (Actors.Wired(ActorKindOf(MainRegistry[e.typeTag])) ==> PropValue(e.properties, "GPIO").Some?)
  {
    var a := DefaultRelayConfig(RelayGpios, SsrGpios, dummy);
    RelayTypes(RelayGpios, SsrGpios, dummy);
    RelayProperties(RelayGpios, SsrGpios, dummy, i);
    if i >= |RelayGpios| + |SsrGpios| {
      assert a[i] == DummyRelay(i - |RelayGpios| - |SsrGpios| + 1);
    } else if i < |RelayGpios| {
      assert a[i] == GpioEntry("Relay ", i + 1, if dummy then "DummyRelay" else "SimpleRelay", "relay Name", RelayGpios[i]);
    } else {
      assert a[i] == GpioEntry("SSR ", i - |RelayGpios| + 1, if dummy then "DummyRelay" else "SimpleSSR", "SSR Name", SsrGpios[i - |RelayGpios|]);
    }
  }

  /** The equipment and buzzer entries main's registry can build. */
  lemma DefaultEquipmentAndBuzzerTyped(dummy: bool)
    ensures var e := DefaultEquipment(dummy)[0];
      e.typeTag in MainRegistry && IsEquipmentKind(MainRegistry[e.typeTag]) && OnlyAddressUint(e)
    ensures var b := DefaultBuzzerConfig(dummy)[0];
      b.typeTag in MainRegistry && IsBuzzerKind(MainRegistry[b.typeTag]) && OnlyAddressUint(b)
  {
  }

  /** The configuration main builds: the 1-Wire bus is only scanned (for
      `adrs`) outside dummy mode. */
  function MainDefaults(adrs: seq<Uint64>, dummy: bool): (cfg: BrewController)
    ensures SensorEntries(cfg.sensors) && ActorEntries(cfg.actors)
    ensures |cfg.equipment| == 1 && |cfg.buzzers| == 1 && cfg.buzzers[0].name == "Main Buzzer"
    ensures cfg.equipment[0].typeTag in MainRegistry && IsEquipmentKind(MainRegistry[cfg.equipment[0].typeTag])
    ensures OnlyAddressUint(cfg.equipment[0])
    ensures forall i :: 0 <= i < |cfg.equipment| ==> PropValue(cfg.equipment[i].properties, "Name") == None
    ensures cfg.buzzers[0].typeTag in MainRegistry && IsBuzzerKind(MainRegistry[cfg.buzzers[0].typeTag])
    ensures OnlyAddressUint(cfg.buzzers[0])
    ensures forall i, j :: 0 <= i < j < |cfg.actors| ==> cfg.actors[i].name != cfg.actors[j].name
  {
    DefaultSensorsTyped(if dummy then [] else adrs, dummy);
    DefaultActorsTyped(dummy);
    DefaultEquipmentAndBuzzerTyped(dummy);
    EquipmentHasNoName(dummy);
    ActorNamesDistinct(RelayGpios, SsrGpios, dummy);
    DefaultFor(InitController(MainRegistry, DefaultConfigFile, dummy), adrs)
  }

  /** Typed entries load. */
  lemma TypedEntriesLoad(cfg: BrewController)
    requires SensorEntries(cfg.sensors) && ActorEntries(cfg.actors)
    requires forall i :: 0 <= i < |cfg.equipment| ==>
      cfg.equipment[i].typeTag in MainRegistry && IsEquipmentKind(MainRegistry[cfg.equipment[i].typeTag]) && OnlyAddressUint(cfg.equipment[i])
    requires forall i :: 0 <= i < |cfg.buzzers| ==>
      cfg.buzzers[i].typeTag in MainRegistry && IsBuzzerKind(MainRegistry[cfg.buzzers[i].typeTag]) && OnlyAddressUint(cfg.buzzers[i])
    ensures Loadable(MainRegistry, cfg)
  {
    forall i | 0 <= i < |cfg.sensors| ensures SensorReady(MainRegistry[cfg.sensors[i].typeTag], cfg.sensors[i]) {
      EntryIsReady(cfg.sensors[i]);
    }
    forall i | 0 <= i < |cfg.actors| ensures ActorReady(MainRegistry[cfg.actors[i].typeTag], cfg.actors[i]) {
      EntryIsReady(cfg.actors[i]);
    }
    forall i | 0 <= i < |cfg.equipment| ensures EquipmentReady(MainRegistry[cfg.equipment[i].typeTag], cfg.equipment[i]) {
      EntryIsReady(cfg.equipment[i]);
    }
    forall i | 0 <= i < |cfg.buzzers| ensures BuzzerReady(MainRegistry[cfg.buzzers[i].typeTag], cfg.buzzers[i]) {
      EntryIsReady(cfg.buzzers[i]);
    }
  }

  /** Every wired entry's configured GPIO is one the host knows. */
  predicate GpiosKnown(a: seq<DeviceConfig>, pins: set<string>)
  {
    forall i :: 0 <= i < |a| && a[i].typeTag in MainRegistry && IsActorKind(MainRegistry[a[i].typeTag]) ==>
      (Actors.Wired(ActorKindOf(MainRegistry[a[i].typeTag])) && PropValue(a[i].properties, "GPIO").Some? ==>
         PropValue(a[i].properties, "GPIO").value in pins)
  }

  /** Typed actor entries whose configured GPIOs the host knows can be wired. */
  lemma TypedEntriesWireable(a: seq<DeviceConfig>, pins: set<string>)
    requires ActorEntries(a) && GpiosKnown(a, pins)
    ensures Wireable(MainRegistry, a, pins)
  {
    forall i | 0 <= i < |a| && Actors.Wired(ActorKindOf(MainRegistry[a[i].typeTag]))
      ensures Actors.GpioKnown(PropsOf(a[i]), pins)
    {
      EntryGpio(a[i], pins);
    }
  }

  /** The host knows the three GPIO names of the default relays and SSR. */
  predicate DefaultGpiosKnown(pins: set<string>) {
    (forall g :: g in RelayGpios ==> g in pins) && (forall g :: g in SsrGpios ==> g in pins)
  }

  /** In dummy mode no default actor is wired; otherwise the relays and the
      SSR are, on GPIO21, GPIO20 and GPIO16. */
  lemma DefaultGpiosWireable(adrs: seq<Uint64>, dummy: bool, pins: set<string>)
    ensures dummy || DefaultGpiosKnown(pins) ==> Wireable(MainRegistry, MainDefaults(adrs, dummy).actors, pins)
  {
    if dummy || DefaultGpiosKnown(pins) {
      var a := MainDefaults(adrs, dummy).actors;
      forall i | 0 <= i < |a| && Actors.Wired(ActorKindOf(MainRegistry[a[i].typeTag]))
        ensures PropValue(a[i].properties, "GPIO").value in pins
      {
        DefaultEntryGpio(dummy, pins, i);
      }
      TypedEntriesWireable(a, pins);
    }
  }

  /** One default actor entry: wired only outside dummy mode, and then on a
      GPIO the host knows. */
  lemma DefaultEntryGpio(dummy: bool, pins: set<string>, i: nat)
    requires dummy || DefaultGpiosKnown(pins)
    requires i < |RelayGpios| + |SsrGpios| + 4
    ensures var e := DefaultRelayConfig(RelayGpios, SsrGpios, dummy)[i];
      e.typeTag in MainRegistry && IsActorKind(MainRegistry[e.typeTag]) && Actors.Wired(ActorKindOf(MainRegistry[e.typeTag])) ==>
        PropValue(e.properties, "GPIO").Some? && PropValue(e.properties, "GPIO").value in pins
  {
    RelayTypes(RelayGpios, SsrGpios, dummy);
    RelayProperties(RelayGpios, SsrGpios, dummy, i);
    if !dummy && i < 3 {
      assert (RelayGpios + SsrGpios)[i] in pins by {
        assert RelayGpios + SsrGpios == ["GPIO21", "GPIO20", "GPIO16"];
      }
    }
  }

  /** With main's registry the default configuration can be loaded, in both
      modes and for any bus addresses. */
  lemma DefaultsLoadable(adrs: seq<Uint64>, dummy: bool)
    ensures Loadable(MainRegistry, MainDefaults(adrs, dummy))
  {
    var cfg := MainDefaults(adrs, dummy);
    OneEquipmentOneBuzzerTyped(cfg);
    TypedEntriesLoad(cfg);
  }

  /** The single equipment and buzzer entries are typed, stated per entry. */
  lemma OneEquipmentOneBuzzerTyped(cfg: BrewController)
    requires |cfg.equipment| == 1 && |cfg.buzzers| == 1
    requires cfg.equipment[0].typeTag in MainRegistry && IsEquipmentKind(MainRegistry[cfg.equipment[0].typeTag])
    requires OnlyAddressUint(cfg.equipment[0])
    requires cfg.buzzers[0].typeTag in MainRegistry && IsBuzzerKind(MainRegistry[cfg.buzzers[0].typeTag])
    requires OnlyAddressUint(cfg.buzzers[0])
    ensures forall i :: 0 <= i < |cfg.equipment| ==>
      cfg.equipment[i].typeTag in MainRegistry && IsEquipmentKind(MainRegistry[cfg.equipment[i].typeTag]) && OnlyAddressUint(cfg.equipment[i])
    ensures forall i :: 0 <= i < |cfg.buzzers| ==>
      cfg.buzzers[i].typeTag in MainRegistry && IsBuzzerKind(MainRegistry[cfg.buzzers[i].typeTag]) && OnlyAddressUint(cfg.buzzers[i])
  {
  }

  /** The names of a list of entries, as a set. */
  function NameSet(entries: seq<DeviceConfig>): set<string>
  {
    set i | 0 <= i < |entries| :: entries[i].name
  }

  /** When every tag is registered, every entry is loaded. */
  lemma AllRegistered(reg: Registry, entries: seq<DeviceConfig>)
    requires forall i :: 0 <= i < |entries| ==> entries[i].typeTag in reg
    ensures RegisteredNames(reg, entries) == NameSet(entries)
  {
  }

  /** Every default entry's tag is in main's registry. */
  lemma DefaultsRegistered(adrs: seq<Uint64>, dummy: bool)
    ensures var cfg := MainDefaults(adrs, dummy);
      && RegisteredNames(MainRegistry, cfg.actors) == NameSet(cfg.actors)
      && RegisteredNames(MainRegistry, cfg.sensors) == NameSet(cfg.sensors)
      && RegisteredNames(MainRegistry, cfg.equipment) == NameSet(cfg.equipment)
      && "Main Buzzer" in RegisteredNames(MainRegistry, cfg.buzzers)
  {
    TypedEntriesRegistered(MainDefaults(adrs, dummy));
  }

  /** Entries typed as main's defaults are all registered. */
  lemma TypedEntriesRegistered(cfg: BrewController)
    requires SensorEntries(cfg.sensors) && ActorEntries(cfg.actors)
    requires |cfg.equipment| == 1 && |cfg.buzzers| == 1 && cfg.buzzers[0].name == "Main Buzzer"
    requires cfg.equipment[0].typeTag in MainRegistry && cfg.buzzers[0].typeTag in MainRegistry
    ensures RegisteredNames(MainRegistry, cfg.actors) == NameSet(cfg.actors)
    ensures RegisteredNames(MainRegistry, cfg.sensors) == NameSet(cfg.sensors)
    ensures RegisteredNames(MainRegistry, cfg.equipment) == NameSet(cfg.equipment)
    ensures "Main Buzzer" in RegisteredNames(MainRegistry, cfg.buzzers)
  {
    AllRegistered(MainRegistry, cfg.actors);
    SensorTagsRegistered(cfg.sensors);
    AllRegistered(MainRegistry, cfg.sensors);
    AllRegistered(MainRegistry, cfg.equipment);
    AllRegistered(MainRegistry, cfg.buzzers);
    assert cfg.buzzers[0].name in NameSet(cfg.buzzers);
  }

  lemma SensorTagsRegistered(s: seq<DeviceConfig>)
    requires SensorEntries(s)
    ensures forall i :: 0 <= i < |s| ==> s[i].typeTag in MainRegistry
  {
    assert "TempSensor" in MainRegistry && "DummyTempSensor" in MainRegistry;
  }

  /** main's four instantiation loops over a configuration, through a
      registry: every registered entry is loaded under its name, and every
      wired actor gets its pin when every wired entry names a GPIO the host
      knows. */
  function LoadConfiguration(reg: Registry, cfg: BrewController, dummy: bool, pins: set<string>): (c: Control)
    requires Loadable(reg, cfg)
    ensures Wireable(reg, cfg.actors, pins) ==> PinsBound(c)
    ensures c.registry == reg && c.sensorValues == map[]
    ensures c.actors.Keys == RegisteredNames(reg, cfg.actors)
    ensures c.sensors.Keys == RegisteredNames(reg, cfg.sensors)
    ensures c.equipment.Keys == RegisteredNames(reg, cfg.equipment)
    ensures c.buzzers.Keys == RegisteredNames(reg, cfg.buzzers)
    ensures forall i :: IsLastRegistered(reg, cfg.actors, i) ==>
      c.actors[cfg.actors[i].name] == Actors.Init(ActorKindOf(reg[cfg.actors[i].typeTag]), PropsOf(cfg.actors[i]), pins)
    ensures forall i :: IsLastRegistered(reg, cfg.equipment, i) ==>
      c.equipment[cfg.equipment[i].name] == Equipment.InitEquipment(PropsOf(cfg.equipment[i]))
    ensures forall i :: IsLastRegistered(reg, cfg.sensors, i) ==>
      c.sensors[cfg.sensors[i].name] == Sensor(reg[cfg.sensors[i].typeTag], Devices.Init(PropsOf(cfg.sensors[i])))
    ensures forall i :: IsLastRegistered(reg, cfg.buzzers, i) ==>
      c.buzzers[cfg.buzzers[i].name] == BuildBuzzer(pins, reg[cfg.buzzers[i].typeTag], cfg.buzzers[i])
  {
    var c0 := InitController(reg, DefaultConfigFile, dummy);
    if Wireable(reg, cfg.actors, pins) then
      LoadBindsPins(c0, cfg, pins);
      SetConfiguration(c0, cfg, pins)
    else
      SetConfiguration(c0, cfg, pins)
  }

  /** main's start-up: the registry literal, the default configuration, the
      four instantiation loops. Every wired actor has its pin when the host
      knows GPIO21, GPIO20 and GPIO16, or in dummy mode, where no actor is
      wired (UnknownGpioUnbinds shows the converse). Every actor,
      sensor and equipment entry is loaded under its name, the "Main Buzzer"
      that main then plays exists, and no reading is recorded yet. Every
      actor's Name() is the key it is stored under, so the names the device
      loop broadcasts are the names equipment asks for; the one equipment has
      no "Name" property, so the device loop addresses it as "Unknown". */
  function MainLoad(adrs: seq<Uint64>, dummy: bool, pins: set<string>): (c: Control)
    ensures dummy || DefaultGpiosKnown(pins) ==> PinsBound(c)
    ensures c.registry == MainRegistry && c.sensorValues == map[]
    ensures c.actors.Keys == NameSet(MainDefaults(adrs, dummy).actors)
    ensures c.sensors.Keys == NameSet(MainDefaults(adrs, dummy).sensors)
    ensures c.equipment.Keys == NameSet(MainDefaults(adrs, dummy).equipment)
    ensures "Main Buzzer" in c.buzzers
    ensures forall n :: n in c.actors ==> Devices.Name(c.actors[n].dev) == n
    ensures forall n :: n in c.equipment ==> Devices.Name(c.equipment[n].dev) == "Unknown"
  {
    var cfg := MainDefaults(adrs, dummy);
    DefaultsLoadable(adrs, dummy);
    DefaultGpiosWireable(adrs, dummy, pins);
    DefaultsRegistered(adrs, dummy);
    NamedActorsNamedByKey(MainRegistry, cfg, dummy, pins);
    UnnamedEquipmentIsUnknown(MainRegistry, cfg, dummy, pins);
    LoadConfiguration(MainRegistry, cfg, dummy, pins)
  }

  /** The "Main Buzzer" main plays after loading: a dummy without sounds or
      pin in dummy mode; otherwise an active buzzer on GPIO18 that knows the
      sound "Main" and has its pin when the host knows GPIO18. */
  lemma MainBuzzerLoaded(adrs: seq<Uint64>, dummy: bool, pins: set<string>)
    ensures var b := MainLoad(adrs, dummy, pins).buzzers["Main Buzzer"];
      && b.kind == (if dummy then Buzzers.DummyBuzzer else Buzzers.ActiveBuzzer)
      && Devices.Name(b.dev) == "Main Buzzer"
      && (dummy ==> b.pin.None? && b.sounds == map[])
      && (!dummy ==> && b.sounds == map["Main" := Buzzers.MainSound()] && b.gpio == Buzzers.DefaultGpio
                     && b.pin == (if Buzzers.DefaultGpio in pins then Some(Buzzers.DefaultGpio) else None))
  {
    var cfg := MainDefaults(adrs, dummy);
    var e := cfg.buzzers[0];
    DefaultsLoadable(adrs, dummy);
    assert IsLastRegistered(MainRegistry, cfg.buzzers, 0);
    var b := LoadConfiguration(MainRegistry, cfg, dummy, pins).buzzers["Main Buzzer"];
    assert b == BuildBuzzer(pins, MainRegistry[e.typeTag], e);
    MainBuzzerEntry(dummy);
    EntryNamesDevice(e);
  }

  /** main's buzzer entry: typed by mode, named by itself, with no "GPIO". */
  lemma MainBuzzerEntry(dummy: bool)
    ensures var e := DefaultBuzzerConfig(dummy)[0];
      && e.typeTag == (if dummy then "DummyBuzzer" else "ActiveBuzzer") && OnlyAddressUint(e)
      && PropValue(e.properties, "Name") == Some(e.name)
      && LastNamed(PropsOf(e), "GPIO") == None
  {
    var e := DefaultBuzzerConfig(dummy)[0];
    PropValueIsLastConfig(e.properties, "GPIO");
    LastNamedAfterConversion(e.properties, "GPIO");
  }

  /** Outside dummy mode, a default GPIO name the host does not know leaves
      its relay or SSR without a pin, and Go panics when it is switched. */
  lemma UnknownGpioUnbinds(adrs: seq<Uint64>, pins: set<string>)
    requires !DefaultGpiosKnown(pins)
    ensures !PinsBound(MainLoad(adrs, false, pins))
  {
    DefaultsLoadable(adrs, false);
    UnknownGpioUnbindsLoaded(MainDefaults(adrs, false), pins);
  }

  lemma UnknownGpioUnbindsLoaded(cfg: BrewController, pins: set<string>)
    requires Loadable(MainRegistry, cfg) && !DefaultGpiosKnown(pins)
    requires cfg.actors == DefaultRelayConfig(RelayGpios, SsrGpios, false)
    requires forall i, j :: 0 <= i < j < |cfg.actors| ==> cfg.actors[i].name != cfg.actors[j].name
    ensures !PinsBound(LoadConfiguration(MainRegistry, cfg, false, pins))
  {
    var j := UnknownDefaultGpio(pins);
    var e := cfg.actors[j];
    DefaultWiredEntry(j);
    EntryGpio(e, pins);
    assert IsLastRegistered(MainRegistry, cfg.actors, j);
    var c := LoadConfiguration(MainRegistry, cfg, false, pins);
    assert c.actors[e.name] == Actors.Init(ActorKindOf(MainRegistry[e.typeTag]), PropsOf(e), pins);
  }

  /** The position of a default GPIO name the host does not know. */
  lemma UnknownDefaultGpio(pins: set<string>) returns (j: nat)
    requires !DefaultGpiosKnown(pins)
    ensures j < 3 && (RelayGpios + SsrGpios)[j] !in pins
  {
    j := if RelayGpios[0] !in pins then 0 else if RelayGpios[1] !in pins then 1 else 2;
    assert RelayGpios + SsrGpios == ["GPIO21", "GPIO20", "GPIO16"];
  }

  /** The first three default actors outside dummy mode: wired, with the
      GPIO names of the relays and the SSR in order. */
  lemma DefaultWiredEntry(j: nat)
    requires j < 3
    ensures var e := DefaultRelayConfig(RelayGpios, SsrGpios, false)[j];
      && e.typeTag in MainRegistry && IsActorKind(MainRegistry[e.typeTag])
      && Actors.Wired(ActorKindOf(MainRegistry[e.typeTag])) && OnlyAddressUint(e)
      && PropValue(e.properties, "GPIO") == Some((RelayGpios + SsrGpios)[j])
  {
    RelayTypes(RelayGpios, SsrGpios, false);
    RelayProperties(RelayGpios, SsrGpios, false, j);
    DefaultActorTyped(false, j);
  }

  /** Actor entries that name themselves are loaded as devices called by
      the key they are stored under. */
  lemma NamedActorsNamedByKey(reg: Registry, cfg: BrewController, dummy: bool, pins: set<string>)
    requires Loadable(reg, cfg)
    requires ActorEntries(cfg.actors)
    ensures var c := LoadConfiguration(reg, cfg, dummy, pins);
      forall n :: n in c.actors ==> Devices.Name(c.actors[n].dev) == n
  {
    var c := LoadConfiguration(reg, cfg, dummy, pins);
    forall n | n in c.actors ensures Devices.Name(c.actors[n].dev) == n {
      var i := LastRegisteredOf(reg, cfg.actors, n);
      EntryNamesDevice(cfg.actors[i]);
    }
  }

  /** Equipment entries without a "Name" property are loaded as devices
      called "Unknown", whatever they are keyed under. */
  lemma UnnamedEquipmentIsUnknown(reg: Registry, cfg: BrewController, dummy: bool, pins: set<string>)
    requires Loadable(reg, cfg)
    requires forall i :: 0 <= i < |cfg.equipment| ==> PropValue(cfg.equipment[i].properties, "Name") == None
    ensures var c := LoadConfiguration(reg, cfg, dummy, pins);
      forall n :: n in c.equipment ==> Devices.Name(c.equipment[n].dev) == "Unknown"
  {
    var c := LoadConfiguration(reg, cfg, dummy, pins);
    forall n | n in c.equipment ensures Devices.Name(c.equipment[n].dev) == "Unknown" {
      var i := LastRegisteredOf(reg, cfg.equipment, n);
      EntryWithoutName(cfg.equipment[i]);
    }
  }

  // ---------------------------------------------------------------------------
  // Web commands
  // ---------------------------------------------------------------------------

  /** The actor or sensor a web command addresses: every "_" becomes " ". */
  function WebName(deviceName: string): (n: string)
    ensures '_' !in n && |n| == |deviceName|
    ensures '_' !in deviceName ==> n == deviceName
  {
    ReplaceChar(deviceName, '_', ' ')
  }

  /** main's HandleWebMessage: the relay commands switch a known actor and
      answer nothing; a sensor query answers the formatted reading or "bad";
      every other command (the actor query included) is ignored. */
  function MainHandleWebMessage(c: Control, msg: ServerCommand, format: Float -> string): (r: WebReply)
    requires PinsBound(c)
    ensures PinsBound(r.ctrl)
    ensures r.ctrl == c.(actors := r.ctrl.actors) && r.ctrl.actors.Keys == c.actors.Keys
    ensures msg.cmd == CmdGetSensorValue ==>
      var n := WebName(msg.deviceName);
      r == WebReply(c, Some(if n in c.sensorValues then format(c.sensorValues[n]) else "bad"), [])
    ensures msg.cmd != CmdGetSensorValue ==> r.reply == None
    ensures (msg.cmd == CmdSetRelay || msg.cmd == CmdRelayOn || msg.cmd == CmdRelayOff) && WebName(msg.deviceName) in c.actors ==>
      var n := WebName(msg.deviceName);
      var on := msg.cmd == CmdRelayOn || (msg.cmd == CmdSetRelay && msg.value == "ON");
      var step := if on then Actors.On(c.actors[n]) else Actors.Off(c.actors[n]);
      r.ctrl.actors == c.actors[n := step.actor] && r.writes == step.writes
    ensures !(msg.cmd == CmdSetRelay || msg.cmd == CmdRelayOn || msg.cmd == CmdRelayOff) || WebName(msg.deviceName) !in c.actors ==>
      r.ctrl == c && r.writes == []
  {
    var name := WebName(msg.deviceName);
    match msg.cmd
    case CmdSetRelay =>
      if name in c.actors then Switch(c, name, msg.value == "ON") else WebReply(c, None, [])
    case CmdRelayOn =>
      if name in c.actors then Switch(c, name, true) else WebReply(c, None, [])
    case CmdRelayOff =>
      if name in c.actors then Switch(c, name, false) else WebReply(c, None, [])
    case CmdGetSensorValue =>
      WebReply(c, Some(if name in c.sensorValues then format(c.sensorValues[name]) else "bad"), [])
    case _ =>
      WebReply(c, None, [])
  }

  /** On names without "_" main's handler and the orchestrator's change the
      same state and drive the same pins; main merely answers less. */
  lemma HandlersAgree(c: Control, msg: ServerCommand, format: Float -> string)
    requires PinsBound(c) && '_' !in msg.deviceName
    ensures var m := MainHandleWebMessage(c, msg, format);
      var o := HandleWebMessage(c, msg, format);
      m.ctrl == o.ctrl && m.writes == o.writes && (m.reply.Some? ==> m.reply == o.reply)
  {
  }
}
