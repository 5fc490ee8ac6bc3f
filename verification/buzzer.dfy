/**
  Buzzers (controller/control/buzzer.go): a GPIO-driven active buzzer that
  plays named sounds as on/off pulse trains, and a dummy that does nothing.
  Sleeps become an elapsed-time result; the host's GPIO registry is the set
  of pin names it knows.
 */
module Buzzers {
  import opened Values
  import opened Properties
  import Devices

  /** One pulse: the pin is high for `on` milliseconds, then low for `off`.
      `level` is carried but never read. */
  datatype SoundBit = SoundBit(level: int, on: int, off: int)

  datatype BuzzerKind = ActiveBuzzer | DummyBuzzer

  /** `pin` is None where Go holds a nil pin: an unknown GPIO name, or a
      dummy, which never looks one up. */
  datatype Buzzer = Buzzer(
    kind: BuzzerKind,
    dev: Devices.Device,
    sounds: map<string, seq<SoundBit>>,
    gpio: string,
    pin: Option<string>)

  /** What a buzzer operation did: the pin writes, the time slept, the result. */
  datatype BuzzStep = BuzzStep(writes: seq<PinWrite>, elapsed: int, result: Outcome)

  const DefaultGpio: string := "GPIO18"

  /** The one sound every active buzzer knows. */
  function MainSound(): seq<SoundBit>
  {
    [SoundBit(100, 200, 20), SoundBit(100, 200, 20), SoundBit(100, 200, 20)]
  }

  /** The GPIO name a property list selects: a non-nil "GPIO" entry, else the default. */
  function GpioOf(properties: seq<Property>): string
  {
    var last := LastNamed(properties, "GPIO");
    if last.Some? && last.value.value.VStr? then last.value.value.s else DefaultGpio
  }

  /** Buzzer.Init, which the active buzzer uses: the device is initialised,
      "GPIO" defaults to GPIO18 (Go asserts it is a string), the pin is looked
      up by that name, and the sound "Main" is three 200 ms beeps with 20 ms
      gaps. */
  function Init(properties: seq<Property>, pins: set<string>): (b: Buzzer)
    requires StringOrNil(properties, "Name") && StringOrNil(properties, "GPIO")
    ensures b.kind == ActiveBuzzer && b.dev.devName == Devices.NameOf(properties)
    ensures b.gpio == GpioOf(properties)
    ensures "GPIO" in b.dev.props && b.dev.props["GPIO"].value == VStr(b.gpio)
    ensures b.pin == (if b.gpio in pins then Some(b.gpio) else None)
    ensures b.sounds == map["Main" := MainSound()]
  {
    var gpio := GpioOf(properties);
    Buzzer(ActiveBuzzer, ActiveDevice(properties), map["Main" := MainSound()], gpio,
           if gpio in pins then Some(gpio) else None)
  }

  /** The active buzzer's device: initialised from the list, then "GPIO"
      initialised to the default. */
  function ActiveDevice(properties: seq<Property>): (d: Devices.Device)
    requires StringOrNil(properties, "Name") && StringOrNil(properties, "GPIO")
    ensures d.devName == Devices.NameOf(properties)
    ensures "GPIO" in d.props && d.props["GPIO"].value == VStr(GpioOf(properties))
  {
    GpioInstalled(properties);
    var dev := Devices.Init(properties);
    dev.(props := InitGpio(dev.props).props)
  }

  function InitGpio(p: Properties): Stored
  {
    InitProperty(p, "GPIO", "string", VStr(DefaultGpio), "GPIO used to control buzzer")
  }

  lemma GpioInstalled(properties: seq<Property>)
    requires StringOrNil(properties, "Name") && StringOrNil(properties, "GPIO")
    ensures var st := InitGpio(Devices.Init(properties).props);
      "GPIO" in st.props && st.value == st.props["GPIO"].value == VStr(GpioOf(properties))
      && st.props.Keys == Devices.Init(properties).props.Keys + {"GPIO"}
  {
    Devices.InitHolds(properties, "GPIO");
    InitGpioValue(Devices.Init(properties).props);
  }

  /** InitGpio keeps a string "GPIO" and otherwise stores the default. */
  lemma InitGpioValue(p: Properties)
    requires "GPIO" in p ==> p["GPIO"].value.VStr? || p["GPIO"].value == VNil
    ensures var st := InitGpio(p);
      && "GPIO" in st.props && st.value == st.props["GPIO"].value
      && st.value == (if "GPIO" in p && p["GPIO"].value.VStr? then p["GPIO"].value else VStr(DefaultGpio))
      && st.props.Keys == p.Keys + {"GPIO"}
  {
  }

  /** DummyBuzzer.Init: the device is initialised with the dummy marker
      appended; no GPIO, no pin and no sounds are set. */
  function DummyInit(properties: seq<Property>): (b: Buzzer)
    requires StringOrNil(properties, "Name")
    ensures b.kind == DummyBuzzer && b.pin.None? && b.sounds == map[] && b.gpio == ""
    ensures b.dev.devName == Devices.NameOf(properties)
    ensures "Dummy" in b.dev.props && b.dev.props["Dummy"].value == VBool(true)
  {
    Devices.NameIgnoresOtherEntries(properties, [CreateDummyProp()]);
    var list := properties + [CreateDummyProp()];
    assert list[|list| - 1] == CreateDummyProp();
    Buzzer(DummyBuzzer, Devices.Init(list), map[], "", None)
  }

  /** On drives the active buzzer's pin high; the dummy does nothing. The
      result is nil either way: a failed write is only logged. */
  function On(b: Buzzer): (r: BuzzStep)
    requires b.kind == ActiveBuzzer ==> b.pin.Some?
    ensures r.result == Pass && r.elapsed == 0
    ensures r.writes == (if b.kind == ActiveBuzzer then [PinWrite(b.pin.value, High)] else [])
  {
    if b.kind == ActiveBuzzer then BuzzStep([PinWrite(b.pin.value, High)], 0, Pass) else BuzzStep([], 0, Pass)
  }

  /** Off drives the active buzzer's pin low; the dummy does nothing. */
  function Off(b: Buzzer): (r: BuzzStep)
    requires b.kind == ActiveBuzzer ==> b.pin.Some?
    ensures r.result == Pass && r.elapsed == 0
    ensures r.writes == (if b.kind == ActiveBuzzer then [PinWrite(b.pin.value, Low)] else [])
  {
    if b.kind == ActiveBuzzer then BuzzStep([PinWrite(b.pin.value, Low)], 0, Pass) else BuzzStep([], 0, Pass)
  }

  /** A sleep of a negative duration returns at once. */
  function Sleep(ms: int): nat
  {
    if ms < 0 then 0 else ms
  }

  /** The time a pulse train takes. */
  function Duration(bits: seq<SoundBit>): nat
  {
    if |bits| == 0 then 0 else Duration(bits[..|bits| - 1]) + Sleep(bits[|bits| - 1].on) + Sleep(bits[|bits| - 1].off)
  }

  /** ActiveBuzzer.PlaySoundBit: for each pulse the pin goes high then low,
      and a final low follows the train; the time slept is the train's
      duration. The dummy only logs. */
  method PlaySoundBit(b: Buzzer, bits: seq<SoundBit>) returns (r: BuzzStep)
    requires b.kind == ActiveBuzzer ==> b.pin.Some?
    ensures r.result == Pass
    ensures b.kind == DummyBuzzer ==> r == BuzzStep([], 0, Pass)
    ensures b.kind == ActiveBuzzer ==>
      && |r.writes| == 2 * |bits| + 1
      && (forall i :: 0 <= i < |r.writes| ==> r.writes[i].pin == b.pin.value)
      && (forall k :: 0 <= k < |bits| ==> r.writes[2 * k].level == High && r.writes[2 * k + 1].level == Low)
      && r.writes[2 * |bits|].level == Low
      && r.elapsed == Duration(bits)
  {
    if b.kind == DummyBuzzer {
      return BuzzStep([], 0, Pass);
    }
    var writes: seq<PinWrite> := [];
    var elapsed: nat := 0;
    for k := 0 to |bits|
      invariant |writes| == 2 * k
      invariant forall i :: 0 <= i < |writes| ==> writes[i].pin == b.pin.value
      invariant forall j :: 0 <= j < k ==> writes[2 * j].level == High && writes[2 * j + 1].level == Low
      invariant elapsed == Duration(bits[..k])
    {
      var on := On(b);
      elapsed := elapsed + Sleep(bits[k].on);
      var off := Off(b);
      elapsed := elapsed + Sleep(bits[k].off);
      writes := writes + on.writes + off.writes;
      assert bits[..k + 1][..k] == bits[..k];
    }
    assert bits[..|bits|] == bits;
    var last := Off(b);
    r := BuzzStep(writes + last.writes, elapsed, Pass);
  }

  /** PlaySound: an active buzzer plays the named sound if it knows it and
      otherwise does nothing; the dummy does nothing. The result is always nil. */
  method PlaySound(b: Buzzer, name: string) returns (r: BuzzStep)
    requires b.kind == ActiveBuzzer ==> b.pin.Some?
    ensures r.result == Pass
    ensures b.kind == DummyBuzzer || name !in b.sounds ==> r == BuzzStep([], 0, Pass)
    ensures b.kind == ActiveBuzzer && name in b.sounds ==>
      && |r.writes| == 2 * |b.sounds[name]| + 1
      && r.writes[|r.writes| - 1] == PinWrite(b.pin.value, Low)
      && r.elapsed == Duration(b.sounds[name])
  {
    if b.kind == ActiveBuzzer && name in b.sounds {
      r := PlaySoundBit(b, b.sounds[name]);
    } else {
      r := BuzzStep([], 0, Pass);
    }
  }

  /** The sound "Main" lasts three times 220 ms. */
  lemma MainTakes660()
    ensures Duration(MainSound()) == 660
  {
    var main := MainSound();
    assert main[..0] == [];
    assert Duration(main[..1]) == 220 by { assert main[..1][..0] == main[..0]; }
    assert Duration(main[..2]) == 440 by { assert main[..2][..1] == main[..1]; }
    assert main[..3] == main;
    assert main[..3][..2] == main[..2];
  }

  /** Playing "Main" on a freshly initialised active buzzer with a known pin
      makes seven writes, ends low and takes 660 ms. */
  method PlayMainAfterInit(properties: seq<Property>, pins: set<string>) returns (r: BuzzStep)
    requires StringOrNil(properties, "Name") && StringOrNil(properties, "GPIO")
    requires GpioOf(properties) in pins
    ensures |r.writes| == 7 && r.writes[6] == PinWrite(GpioOf(properties), Low)
    ensures r.elapsed == 660 && r.result == Pass
  {
    var b := Init(properties, pins);
    assert b.kind == ActiveBuzzer && b.pin == Some(GpioOf(properties));
    MainTakes660();
    r := PlaySound(b, "Main");
  }

  /** Both kinds inherit Buzzer.OnStart and Buzzer.OnStop, which call
      Buzzer.Off, not the dummy's: a pin is written whenever the host
      initialises, and Go panics when that pin is nil. */
  predicate StartWritesSafely(b: Buzzer, hostInit: Outcome) {
    hostInit.Fail? || b.pin.Some?
  }

  /** OnStart as written: a failing host initialisation is returned;
      otherwise the pin is driven low, whatever the kind. */
  function OnStart(b: Buzzer, hostInit: Outcome): (r: BuzzStep)
    requires StartWritesSafely(b, hostInit)
    ensures hostInit.Fail? ==> r == BuzzStep([], 0, hostInit)
    ensures hostInit == Pass ==> r == BuzzStep([PinWrite(b.pin.value, Low)], 0, Pass)
  {
    if hostInit.Fail? then BuzzStep([], 0, hostInit)
    else BuzzStep([PinWrite(b.pin.value, Low)], 0, Pass)
  }

  /** OnStop as written: drives the pin low, whatever the kind. */
  function OnStop(b: Buzzer): (r: BuzzStep)
    requires b.pin.Some?
    ensures r == BuzzStep([PinWrite(b.pin.value, Low)], 0, Pass)
  {
    BuzzStep([PinWrite(b.pin.value, Low)], 0, Pass)
  }

  /** The discrepancy: a dummy buzzer never has a pin, so it cannot be
      started on a host that initialises and cannot be stopped at all. */
  lemma DummyBuzzerCannotStart(properties: seq<Property>)
    requires StringOrNil(properties, "Name")
    ensures !StartWritesSafely(DummyInit(properties), Pass)
    ensures DummyInit(properties).pin.None?
  {
  }

  /** OnStart with its final Off dispatched to the buzzer's own Off, as the
      dummy evidently intends: a failing host initialisation is still
      returned, and a dummy starts without touching any pin. */
  function OnStartCorrected(b: Buzzer, hostInit: Outcome): (r: BuzzStep)
    requires b.kind == ActiveBuzzer ==> b.pin.Some?
    ensures b.kind == DummyBuzzer ==> r == BuzzStep([], 0, hostInit)
    ensures b.kind == ActiveBuzzer ==> r == OnStart(b, hostInit)
  {
    if hostInit.Fail? then BuzzStep([], 0, hostInit) else Off(b)
  }

  /** OnStop dispatching to the buzzer's own Off. */
  function OnStopCorrected(b: Buzzer): (r: BuzzStep)
    requires b.kind == ActiveBuzzer ==> b.pin.Some?
    ensures b.kind == DummyBuzzer ==> r == BuzzStep([], 0, Pass)
    ensures b.kind == ActiveBuzzer ==> r == OnStop(b)
  {
    Off(b)
  }

  /** Every buzzer the two Init functions can build, whose GPIO name the
      host knows, can be started and stopped by the corrected functions, and
      the active buzzer ends low. */
  lemma CorrectedStartStopTotal(properties: seq<Property>, pins: set<string>, hostInit: Outcome)
    requires StringOrNil(properties, "Name") && StringOrNil(properties, "GPIO")
    requires GpioOf(properties) in pins
    ensures OnStartCorrected(DummyInit(properties), hostInit) == BuzzStep([], 0, hostInit)
    ensures OnStopCorrected(DummyInit(properties)).writes == []
    ensures var b := Init(properties, pins);
      OnStopCorrected(b).writes == [PinWrite(GpioOf(properties), Low)]
  {
  }
}
