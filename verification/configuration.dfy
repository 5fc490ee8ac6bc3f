/**
  The default configuration generators (controller/config/configuration.go):
  pure builders of the device lists a controller starts from when it has no
  configuration file. Every list element has the same shape (a name, a type
  tag and string-valued properties), so one DeviceConfig serves for
  equipment, sensors, actors and buzzers.
 */
module Configuration {
  import opened Values
  import opened Strings

  /** A configured property; its value is the XML character data, a string. */
  datatype PropertyConfig = PropertyConfig(
    name: string,
    typeTag: string,
    hidden: bool,
    comment: string,
    choice: string,
    select: string,
    value: string)

  /** An equipment, sensor, actor or buzzer entry. */
  datatype DeviceConfig = DeviceConfig(name: string, typeTag: string, properties: seq<PropertyConfig>)

  datatype BrewController = BrewController(
    name: string,
    version: string,
    buzzers: seq<DeviceConfig>,
    equipment: seq<DeviceConfig>,
    sensors: seq<DeviceConfig>,
    actors: seq<DeviceConfig>,
    properties: seq<PropertyConfig>)

  /** A visible string property with no choice or selection. */
  function Prop(name: string, value: string, comment: string): PropertyConfig
  {
    PropertyConfig(name, "string", false, comment, "", "", value)
  }

  const Fahrenheit: string := "\U{00B0}F"

  /** The names of a list of entries, in order. */
  function EntryNames(entries: seq<DeviceConfig>): seq<string>
  {
    seq(|entries|, i requires 0 <= i < |entries| => entries[i].name)
  }

  /** The value of the last property of an entry with the given name. */
  function PropValue(props: seq<PropertyConfig>, name: string): Option<string>
  {
    if |props| == 0 then None
    else if props[|props| - 1].name == name then Some(props[|props| - 1].value)
    else PropValue(props[..|props| - 1], name)
  }

  /** A name has no value exactly when no property carries it. */
  lemma {:induction false} PropValueAbsent(props: seq<PropertyConfig>, name: string)
    ensures PropValue(props, name) == None <==> forall i :: 0 <= i < |props| ==> props[i].name != name
  {
    if |props| > 0 {
      PropValueAbsent(props[..|props| - 1], name);
    }
  }

  // ---------------------------------------------------------------------------
  // Actors
  // ---------------------------------------------------------------------------

  /** One GPIO-driven entry: named `prefix` followed by its 1-based position. */
  function GpioEntry(prefix: string, k: nat, typeTag: string, comment: string, gpio: string): DeviceConfig
  {
    var name := prefix + NatToDecimal(k);
    DeviceConfig(name, typeTag, [Prop("Name", name, comment), Prop("GPIO", gpio, "GPIO by name")])
  }

  function GpioEntries(prefix: string, typeTag: string, comment: string, gpios: seq<string>): seq<DeviceConfig>
  {
    seq(|gpios|, i requires 0 <= i < |gpios| => GpioEntry(prefix, i + 1, typeTag, comment, gpios[i]))
  }

  function DummyRelay(k: nat): DeviceConfig
  {
    var name := "Dummy Relay " + NatToDecimal(k);
    DeviceConfig(name, "DummyRelay", [Prop("Name", name, "Dummy relay Name")])
  }

  /** DefaultRelayConfig: one relay per relay GPIO, one SSR per SSR GPIO,
      then four dummy relays. In dummy mode the relays and SSRs are dummy
      relays too. */
  function DefaultRelayConfig(relayGpio: seq<string>, ssrGpio: seq<string>, dummy: bool): (r: seq<DeviceConfig>)
    ensures |r| == |relayGpio| + |ssrGpio| + 4
    ensures forall i :: 0 <= i < |relayGpio| ==>
      r[i] == GpioEntry("Relay ", i + 1, if dummy then "DummyRelay" else "SimpleRelay", "relay Name", relayGpio[i])
    ensures forall i :: 0 <= i < |ssrGpio| ==>
      r[|relayGpio| + i] == GpioEntry("SSR ", i + 1, if dummy then "DummyRelay" else "SimpleSSR", "SSR Name", ssrGpio[i])
    ensures forall k :: 1 <= k <= 4 ==> r[|relayGpio| + |ssrGpio| + k - 1] == DummyRelay(k)
  {
    var relayType := if dummy then "DummyRelay" else "SimpleRelay";
    var ssrType := if dummy then "DummyRelay" else "SimpleSSR";
    GpioEntries("Relay ", relayType, "relay Name", relayGpio)
      + GpioEntries("SSR ", ssrType, "SSR Name", ssrGpio)
      + [DummyRelay(1), DummyRelay(2), DummyRelay(3), DummyRelay(4)]
  }

  /** Each GPIO-driven entry names itself in its "Name" property and carries
      its input string as "GPIO"; the trailing dummies carry only a name. */
  lemma RelayProperties(relayGpio: seq<string>, ssrGpio: seq<string>, dummy: bool, i: nat)
    requires i < |relayGpio| + |ssrGpio| + 4
    ensures var e := DefaultRelayConfig(relayGpio, ssrGpio, dummy)[i];
      && PropValue(e.properties, "Name") == Some(e.name)
      && (i < |relayGpio| ==> PropValue(e.properties, "GPIO") == Some(relayGpio[i]))
      && (|relayGpio| <= i < |relayGpio| + |ssrGpio| ==>
            PropValue(e.properties, "GPIO") == Some(ssrGpio[i - |relayGpio|]))
      && (i >= |relayGpio| + |ssrGpio| ==> PropValue(e.properties, "GPIO") == None && e.typeTag == "DummyRelay")
  {
    var e := DefaultRelayConfig(relayGpio, ssrGpio, dummy)[i];
    var n := |relayGpio| + |ssrGpio|;
    if i >= n {
      assert e == DummyRelay(i - n + 1);
      assert e.properties[..0] == [];
    } else {
      assert e.properties[..1][..0] == [];
    }
  }

  /** The type tag of every actor entry follows the dummy flag. */
  lemma RelayTypes(relayGpio: seq<string>, ssrGpio: seq<string>, dummy: bool)
    ensures var r := DefaultRelayConfig(relayGpio, ssrGpio, dummy);
      && (forall i :: 0 <= i < |r| ==>
            r[i].typeTag == (if dummy || i >= |relayGpio| + |ssrGpio| then "DummyRelay"
                             else if i < |relayGpio| then "SimpleRelay" else "SimpleSSR"))
  {
    var r := DefaultRelayConfig(relayGpio, ssrGpio, dummy);
    forall i | 0 <= i < |r|
      ensures r[i].typeTag == (if dummy || i >= |relayGpio| + |ssrGpio| then "DummyRelay"
                               else if i < |relayGpio| then "SimpleRelay" else "SimpleSSR")
    {
      if i >= |relayGpio| + |ssrGpio| {
        assert r[i] == DummyRelay(i - |relayGpio| - |ssrGpio| + 1);
      }
    }
  }

  lemma PrefixCancel(a: string, x: string, y: string)
    requires a + x == a + y
    ensures x == y
  {
    assert x == (a + x)[|a|..];
    assert y == (a + y)[|a|..];
  }

  /** Names from different labels differ in their first character. */
  lemma FirstCharDiffers(a: string, x: string, b: string, y: string)
    requires |a| > 0 && |b| > 0 && a[0] != b[0]
    ensures a + x != b + y
  {
    assert (a + x)[0] == a[0];
    assert (b + y)[0] == b[0];
  }

  /** The numbered name of position k is unique to k. */
  lemma NumberedNamesDistinct(prefix: string, j: nat, k: nat)
    requires prefix + NatToDecimal(j) == prefix + NatToDecimal(k)
    ensures j == k
  {
    PrefixCancel(prefix, NatToDecimal(j), NatToDecimal(k));
    NatToDecimalInjective(j, k);
  }

  /** The actor names are pairwise distinct, so instantiating the list keeps
      every entry. */
  lemma ActorNamesDistinct(relayGpio: seq<string>, ssrGpio: seq<string>, dummy: bool)
    ensures var r := DefaultRelayConfig(relayGpio, ssrGpio, dummy);
      forall i, j :: 0 <= i < j < |r| ==> r[i].name != r[j].name
  {
    var r := DefaultRelayConfig(relayGpio, ssrGpio, dummy);
    forall i, j | 0 <= i < j < |r|
      ensures r[i].name != r[j].name
    {
      ActorNamePair(relayGpio, ssrGpio, dummy, i, j);
    }
  }

  /** The label and number of the actor name at position i. */
  function ActorLabel(n1: nat, n2: nat, i: nat): (string, nat)
  {
    if i < n1 then ("Relay ", i + 1) else if i < n2 then ("SSR ", i - n1 + 1) else ("Dummy Relay ", i - n2 + 1)
  }

  lemma ActorNameAt(relayGpio: seq<string>, ssrGpio: seq<string>, dummy: bool, i: nat)
    requires i < |relayGpio| + |ssrGpio| + 4
    ensures var lk := ActorLabel(|relayGpio|, |relayGpio| + |ssrGpio|, i);
      DefaultRelayConfig(relayGpio, ssrGpio, dummy)[i].name == lk.0 + NatToDecimal(lk.1)
  {
    var n1 := |relayGpio|;
    var n2 := |relayGpio| + |ssrGpio|;
    var r := DefaultRelayConfig(relayGpio, ssrGpio, dummy);
    if n1 <= i < n2 {
      assert r[n1 + (i - n1)] == r[i];
    } else if n2 <= i {
      assert r[n2 + (i - n2 + 1) - 1] == r[i];
    }
  }

  lemma ActorNamePair(relayGpio: seq<string>, ssrGpio: seq<string>, dummy: bool, i: nat, j: nat)
    requires i < j < |relayGpio| + |ssrGpio| + 4
    ensures DefaultRelayConfig(relayGpio, ssrGpio, dummy)[i].name != DefaultRelayConfig(relayGpio, ssrGpio, dummy)[j].name
  {
    var n1 := |relayGpio|;
    var n2 := |relayGpio| + |ssrGpio|;
    var (li, ki) := ActorLabel(n1, n2, i);
    var (lj, kj) := ActorLabel(n1, n2, j);
    ActorNameAt(relayGpio, ssrGpio, dummy, i);
    ActorNameAt(relayGpio, ssrGpio, dummy, j);
    if li == lj {
      if li + NatToDecimal(ki) == lj + NatToDecimal(kj) {
        NumberedNamesDistinct(li, ki, kj);
      }
    } else {
      FirstCharDiffers(li, NatToDecimal(ki), lj, NatToDecimal(kj));
    }
  }

  // ---------------------------------------------------------------------------
  // Sensors
  // ---------------------------------------------------------------------------

  function DummySensor(name: string): DeviceConfig
  {
    DeviceConfig(name, "DummyTempSensor", [Prop("Name", name, "Sensor Name"), Prop("Units", Fahrenheit, "Units for Sensor")])
  }

  /** The 1-Wire sensor at position k with the given bus address. */
  function TempSensor(k: nat, address: Uint64): DeviceConfig
  {
    var name := "temp Sensor " + NatToDecimal(k);
    DeviceConfig(name, "TempSensor", [
      Prop("Name", name, "Sensor Name"),
      PropertyConfig("Address", "uint", false, "1-Wire sensor address", "", "", NatToDecimal(address)),
      Prop("Units", Fahrenheit, "Units for Sensor")])
  }

  /** DefaultSensorConfig: three dummy sensors in dummy mode; otherwise one
      1-Wire sensor per address followed by one dummy sensor. */
  function DefaultSensorConfig(adrs: seq<Uint64>, dummy: bool): (r: seq<DeviceConfig>)
    ensures dummy ==> |r| == 3 && forall i :: 0 <= i < 3 ==> r[i] == DummySensor("temp Sensor " + NatToDecimal(i + 1))
    ensures !dummy ==> |r| == |adrs| + 1
    ensures !dummy ==> forall i :: 0 <= i < |adrs| ==> r[i] == TempSensor(i + 1, adrs[i])
    ensures !dummy ==> r[|adrs|] == DummySensor("Dummy Temp 1")
  {
    if dummy then
      seq(3, i requires 0 <= i < 3 => DummySensor("temp Sensor " + NatToDecimal(i + 1)))
    else
      seq(|adrs|, i requires 0 <= i < |adrs| => TempSensor(i + 1, adrs[i])) + [DummySensor("Dummy Temp 1")]
  }

  /** Every sensor entry is typed by the dummy flag, names itself, and a
      1-Wire sensor's "Address" reads back as its bus address. */
  lemma SensorAddressRoundTrip(adrs: seq<Uint64>, k: nat)
    requires 1 <= k <= |adrs|
    ensures var e := DefaultSensorConfig(adrs, false)[k - 1];
      && e.typeTag == "TempSensor"
      && e.name == "temp Sensor " + NatToDecimal(k)
      && e.properties[1].name == "Address" && e.properties[1].typeTag == "uint"
      && ParseUint64(e.properties[1].value) == adrs[k - 1]
  {
    ParseFormatRoundTrip(adrs[k - 1]);
  }

  // ---------------------------------------------------------------------------
  // Buzzers and equipment
  // ---------------------------------------------------------------------------

  /** DefaultBuzzerConfig: the one "Main Buzzer", a dummy exactly in dummy mode. */
  function DefaultBuzzerConfig(dummy: bool): (r: seq<DeviceConfig>)
    ensures |r| == 1 && r[0].name == "Main Buzzer"
    ensures r[0].typeTag == (if dummy then "DummyBuzzer" else "ActiveBuzzer")
    ensures PropValue(r[0].properties, "Name") == Some(r[0].name)
  {
    var name := "Main Buzzer";
    [DeviceConfig(name, if dummy then "DummyBuzzer" else "ActiveBuzzer", [Prop("Name", name, "Buzzer Name")])]
  }

  /** The sensor, units and relay assignments of one RIMS kettle. */
  function Rimm(name: string, sensor: string, pump: string, circulator: string, heater: string): DeviceConfig
  {
    DeviceConfig(name, "SimpleRIMM", [
      Prop("Temp Sensor", sensor, "Sensor Name"),
      Prop("Units", Fahrenheit, "Units for Sensor"),
      Prop("Pump", pump, "Units for Sensor"),
      Prop("Circulator", circulator, "Units for Sensor"),
      Prop("Heater", heater, "Units for Sensor")])
  }

  /** DefaultEquipment: one SimpleRIMM wired to the dummy relays in dummy
      mode and to the first relays and SSR otherwise. */
  function DefaultEquipment(dummy: bool): (r: seq<DeviceConfig>)
    ensures |r| == 1 && r[0].typeTag == "SimpleRIMM"
    ensures PropValue(r[0].properties, "Heater") == Some(if dummy then "Dummy Relay 3" else "SSR 1")
  {
    if dummy then [Rimm("Dummy Equipment 1", "Temp Sensor 1", "Dummy Relay 1", "Dummy Relay 2", "Dummy Relay 3")]
    else [Rimm("Equipment 1", "Dummy Temp 1", "Relay 1", "Relay 2", "SSR 1")]
  }

  /** The default equipment carries no "Name" property, so the device
      built from it is called "Unknown" whatever its entry name. */
  lemma EquipmentHasNoName(dummy: bool)
    ensures PropValue(DefaultEquipment(dummy)[0].properties, "Name") == None
  {
    var p := DefaultEquipment(dummy)[0].properties;
    PropValueAbsent(p, "Name");
  }

  /** DefaultConfiguration: the four default lists; the error is always nil. */
  function DefaultConfiguration(adrs: seq<Uint64>, relayGpio: seq<string>, ssrGpio: seq<string>, dummy: bool)
    : (r: (BrewController, Outcome))
    ensures r.1 == Pass
    ensures r.0.buzzers == DefaultBuzzerConfig(dummy) && r.0.sensors == DefaultSensorConfig(adrs, dummy)
    ensures r.0.actors == DefaultRelayConfig(relayGpio, ssrGpio, dummy) && r.0.equipment == DefaultEquipment(dummy)
    ensures r.0.name == "" && r.0.version == "" && r.0.properties == []
  {
    (BrewController("", "", DefaultBuzzerConfig(dummy), DefaultEquipment(dummy),
                    DefaultSensorConfig(adrs, dummy), DefaultRelayConfig(relayGpio, ssrGpio, dummy), []), Pass)
  }

  /** CreateSensorConfig (controls.go) ignores its arguments. */
  function CreateSensorConfig(name: string, typeTag: string, hidden: bool, comment: string, value: string)
    : (r: (DeviceConfig, Outcome))
    ensures r.0.name == "" && r.0.typeTag == "" && r.0.properties == [] && r.1 == Pass
  {
    (DeviceConfig("", "", []), Pass)
  }

  /** The sensor and relays the default equipment refers to. In the
      non-dummy configuration they all exist once there are two relay GPIOs
      and one SSR GPIO. In the dummy configuration the relays exist but the
      sensor "Temp Sensor 1" does not: the dummy sensors are spelt
      "temp Sensor k". */
  lemma EquipmentReferences(adrs: seq<Uint64>, relayGpio: seq<string>, ssrGpio: seq<string>)
    ensures var names := EntryNames(DefaultRelayConfig(relayGpio, ssrGpio, true));
      "Dummy Relay 1" in names && "Dummy Relay 2" in names && "Dummy Relay 3" in names
    ensures "Temp Sensor 1" !in EntryNames(DefaultSensorConfig(adrs, true))
    ensures "Dummy Temp 1" in EntryNames(DefaultSensorConfig(adrs, false))
    ensures |relayGpio| >= 2 && |ssrGpio| >= 1 ==>
      var names := EntryNames(DefaultRelayConfig(relayGpio, ssrGpio, false));
      "Relay 1" in names && "Relay 2" in names && "SSR 1" in names
  {
    DummyRelaysNamed(relayGpio, ssrGpio);
    DummySensorsMisspelt(adrs);
    assert EntryNames(DefaultSensorConfig(adrs, false))[|adrs|] == "Dummy Temp 1";
    if |relayGpio| >= 2 && |ssrGpio| >= 1 {
      WiredRelaysNamed(relayGpio, ssrGpio);
    }
  }

  lemma DummyRelaysNamed(relayGpio: seq<string>, ssrGpio: seq<string>)
    ensures var names := EntryNames(DefaultRelayConfig(relayGpio, ssrGpio, true));
      "Dummy Relay 1" in names && "Dummy Relay 2" in names && "Dummy Relay 3" in names
  {
    var n := |relayGpio| + |ssrGpio|;
    var dummies := DefaultRelayConfig(relayGpio, ssrGpio, true);
    assert dummies[n].name == "Dummy Relay 1" && dummies[n + 1].name == "Dummy Relay 2" && dummies[n + 2].name == "Dummy Relay 3";
    assert EntryNames(dummies)[n] == "Dummy Relay 1";
    assert EntryNames(dummies)[n + 1] == "Dummy Relay 2";
    assert EntryNames(dummies)[n + 2] == "Dummy Relay 3";
  }

  lemma DummySensorsMisspelt(adrs: seq<Uint64>)
    ensures "Temp Sensor 1" !in EntryNames(DefaultSensorConfig(adrs, true))
  {
    var sensors := DefaultSensorConfig(adrs, true);
    forall i | 0 <= i < 3
      ensures EntryNames(sensors)[i] != "Temp Sensor 1"
    {
      assert EntryNames(sensors)[i] == "temp Sensor " + NatToDecimal(i + 1);
      FirstCharDiffers("temp Sensor ", NatToDecimal(i + 1), "Temp Sensor ", "1");
    }
  }

  lemma WiredRelaysNamed(relayGpio: seq<string>, ssrGpio: seq<string>)
    requires |relayGpio| >= 2 && |ssrGpio| >= 1
    ensures var names := EntryNames(DefaultRelayConfig(relayGpio, ssrGpio, false));
      "Relay 1" in names && "Relay 2" in names && "SSR 1" in names
  {
    var r := DefaultRelayConfig(relayGpio, ssrGpio, false);
    assert EntryNames(r)[0] == "Relay 1" && EntryNames(r)[1] == "Relay 2";
    assert EntryNames(r)[|relayGpio|] == "SSR 1";
  }
}
