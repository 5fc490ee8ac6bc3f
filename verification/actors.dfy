/**
  Actors (controller/control/actors.go, and the earlier base Actor of
  controller/control/controls.go): on/off actuators with a state and a power
  level. Concrete kinds differ only in what they drive onto their GPIO pin.
 */
module Actors {
  import opened Values
  import opened Properties
  import Devices

  const StateOff: int := 0
  const StateOn: int := 1

  /** StubActor is the Actor of controls.go, whose On, Off and SetPower do
      nothing; BaseActor is the Actor of actors.go, which records its power;
      the other three are the concrete kinds of actors.go. */
  datatype ActorKind = StubActor | BaseActor | DummyRelay | SimpleRelay | SimpleSSR

  /** Kinds whose On and Off record the state. */
  predicate Switching(k: ActorKind) {
    k == DummyRelay || k == SimpleRelay || k == SimpleSSR
  }

  /** Kinds whose On and Off write to a GPIO pin. */
  predicate Wired(k: ActorKind) {
    k == SimpleRelay || k == SimpleSSR
  }

  datatype Actor = Actor(kind: ActorKind, dev: Devices.Device, state: int, power: int, pin: Option<string>)

  /** A wired actor has a pin: Go calls Out on a nil pin otherwise, which panics. */
  predicate PinBound(a: Actor) {
    Wired(a.kind) ==> a.pin.Some?
  }

  /** What a command did: the actor afterwards, the pin writes, the error result. */
  datatype Step = Step(actor: Actor, writes: seq<PinWrite>, result: Outcome)

  /** The level a wired actor drives for a state: the relay board is
      active-low, the solid-state relay active-high. */
  function DriveLevel(kind: ActorKind, on: bool): Level
    requires Wired(kind)
  {
    if kind == SimpleRelay then (if on then Low else High)
    else (if on then High else Low)
  }

  /** The last "GPIO" property holds a string the host's GPIO registry knows. */
  predicate GpioKnown(properties: seq<Property>, pins: set<string>) {
    var gpio := LastNamed(properties, "GPIO");
    gpio.Some? && gpio.value.value.VStr? && gpio.value.value.s in pins
  }

  /** Actor.Init: the device is initialised from the list and, in actors.go,
      the pin is looked up by the name a "GPIO" property gives, when there is
      one (Go asserts it is a string). `pins` are the names the host's GPIO
      registry knows; an unknown name leaves the pin nil. State and power
      start at zero, i.e. off. */
  function Init(kind: ActorKind, properties: seq<Property>, pins: set<string>): (a: Actor)
    requires StringOrNil(properties, "Name")
    requires kind != StubActor ==> StringIfPresent(properties, "GPIO")
    ensures a.kind == kind && a.dev == Devices.Init(properties)
    ensures a.state == StateOff && a.power == 0
    ensures a.pin.Some? <==> kind != StubActor && GpioKnown(properties, pins)
    ensures a.pin.Some? ==> a.pin == Some(LastNamed(properties, "GPIO").value.value.s)
  {
    Devices.InitHolds(properties, "GPIO");
    var dev := Devices.Init(properties);
    var gpio := GetProperty(dev.props, "GPIO");
    var pin := if kind != StubActor && gpio.1 && gpio.0.value.s in pins then Some(gpio.0.value.s) else None;
    Actor(kind, dev, StateOff, 0, pin)
  }

  /** A wired actor gets its pin exactly when its "GPIO" names a pin the
      host knows. */
  lemma InitBindsPin(kind: ActorKind, properties: seq<Property>, pins: set<string>)
    requires StringOrNil(properties, "Name") && StringIfPresent(properties, "GPIO")
    ensures PinBound(Init(kind, properties, pins)) <==> (Wired(kind) ==> GpioKnown(properties, pins))
  {
  }

  function Switch(a: Actor, on: bool): (r: Step)
    requires PinBound(a)
  {
    match a.kind
    case StubActor => Step(a, [], Pass)
    case BaseActor => Step(a, [], Pass)
    case DummyRelay => Step(a.(state := if on then StateOn else StateOff), [], Pass)
    case SimpleRelay =>
      Step(a.(state := if on then StateOn else StateOff), [PinWrite(a.pin.value, if on then Low else High)], Pass)
    case SimpleSSR =>
      Step(a.(state := if on then StateOn else StateOff), [PinWrite(a.pin.value, if on then High else Low)], Pass)
  }

  /** On: a switching kind records StateOn and a wired one drives its pin to
      its active level; the base kinds do nothing. The result is always nil:
      a failed pin write is only logged. */
  function On(a: Actor): (r: Step)
    requires PinBound(a)
    ensures r.result == Pass
    ensures r.actor == (if Switching(a.kind) then a.(state := StateOn) else a)
    ensures r.writes == (if Wired(a.kind) then [PinWrite(a.pin.value, DriveLevel(a.kind, true))] else [])
  {
    Switch(a, true)
  }

  /** Off: the mirror image of On. */
  function Off(a: Actor): (r: Step)
    requires PinBound(a)
    ensures r.result == Pass
    ensures r.actor == (if Switching(a.kind) then a.(state := StateOff) else a)
    ensures r.writes == (if Wired(a.kind) then [PinWrite(a.pin.value, DriveLevel(a.kind, false))] else [])
  {
    Switch(a, false)
  }

  /** SetPower records the level (a no-op for the controls.go actor) and leaves
      the state alone. */
  function SetPower(a: Actor, power: int): (r: Step)
    ensures r.result == Pass && r.writes == []
    ensures r.actor.state == a.state && r.actor.kind == a.kind && r.actor.dev == a.dev && r.actor.pin == a.pin
    ensures r.actor.power == (if a.kind == StubActor then a.power else power)
  {
    if a.kind == StubActor then Step(a, [], Pass) else Step(a.(power := power), [], Pass)
  }

  function GetState(a: Actor): int
  {
    a.state
  }

  function GetPowerLevel(a: Actor): int
  {
    a.power
  }

  /** OnStart writes a pin only for a wired kind whose host initialised. */
  predicate StartWritesSafely(a: Actor, hostInit: Outcome) {
    Wired(a.kind) && hostInit == Pass ==> a.pin.Some?
  }

  /** OnStart: the base kinds do nothing (Device.OnStart); a dummy relay
      switches off; a wired kind first initialises the host and, if that
      fails, returns its error without touching the pin. Only a successful
      initialisation reaches the pin write, where Go panics on a nil pin. */
  function OnStart(a: Actor, hostInit: Outcome): (r: Step)
    requires StartWritesSafely(a, hostInit)
    ensures !Switching(a.kind) ==> r == Step(a, [], Pass)
    ensures Wired(a.kind) && hostInit.Fail? ==> r == Step(a, [], hostInit)
    ensures Switching(a.kind) && (a.kind == DummyRelay || hostInit == Pass) ==>
      r.result == Pass && r.actor == a.(state := StateOff)
  {
    match a.kind
    case StubActor => Step(a, [], Pass)
    case BaseActor => Step(a, [], Pass)
    case DummyRelay => Off(a)
    case SimpleRelay => if hostInit.Fail? then Step(a, [], hostInit) else Off(a)
    case SimpleSSR => if hostInit.Fail? then Step(a, [], hostInit) else Off(a)
  }

  /** OnStop: every switching kind ends off; the base kinds do nothing. */
  function OnStop(a: Actor): (r: Step)
    requires PinBound(a)
    ensures r.result == Pass
    ensures Switching(a.kind) ==> r.actor == a.(state := StateOff)
    ensures !Switching(a.kind) ==> r == Step(a, [], Pass)
  {
    if Switching(a.kind) then Off(a) else Step(a, [], Pass)
  }

  /** Applies On (true) and Off (false) commands in order, collecting the pin writes. */
  function Apply(a: Actor, cmds: seq<bool>): (r: Step)
    requires PinBound(a)
    ensures PinBound(r.actor) && r.result == Pass
    ensures r.actor.kind == a.kind && r.actor.pin == a.pin && r.actor.dev == a.dev && r.actor.power == a.power
  {
    if |cmds| == 0 then Step(a, [], Pass)
    else
      var prev := Apply(a, cmds[..|cmds| - 1]);
      var s := if cmds[|cmds| - 1] then On(prev.actor) else Off(prev.actor);
      Step(s.actor, prev.writes + s.writes, s.result)
  }

  /** After any command sequence a switching actor's state is the last
      command, the base kinds keep theirs, and the power never changes. A
      wired actor wrote one pin level per command, and the last one is the
      level that matches its state. */
  lemma {:induction false} StateFollowsLastCommand(a: Actor, cmds: seq<bool>)
    requires PinBound(a)
    ensures var r := Apply(a, cmds);
      && GetPowerLevel(r.actor) == GetPowerLevel(a)
      && (|cmds| == 0 || !Switching(a.kind) ==> GetState(r.actor) == GetState(a))
      && (|cmds| > 0 && Switching(a.kind) ==>
            GetState(r.actor) == (if cmds[|cmds| - 1] then StateOn else StateOff))
      && (Wired(a.kind) ==> |r.writes| == |cmds|)
      && (!Wired(a.kind) ==> r.writes == [])
      && (|cmds| > 0 && Wired(a.kind) ==>
            r.writes[|cmds| - 1] == PinWrite(a.pin.value, DriveLevel(a.kind, GetState(r.actor) == StateOn)))
  {
    if |cmds| > 0 {
      StateFollowsLastCommand(a, cmds[..|cmds| - 1]);
    }
  }
}
