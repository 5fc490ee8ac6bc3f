/**
  Equipment (controller/control/equipment.go): a controller that keeps
  shadow copies of the sensors and actors it hears about through its inbound
  queue. The shown revision reads at most one message per Run and has no
  control logic of its own.
 */
module Equipment {
  import opened Values
  import opened Properties
  import Devices

  /** Commands carried by equipment messages. CmdUpdateDevices is the only one
      equipment.go defines (as 1); the others are used by control.go. */
  datatype EquipCmd = CmdUpdateDevices | CmdSendNotification | CmdActorOn | CmdActorOff | CmdOther(code: int)

  datatype SensValue = SensValue(name: string, value: Float)

  datatype ActValue = ActValue(name: string, state: int, power: int)

  /** One message between the orchestrator and an equipment. */
  datatype EquipMessage = EquipMessage(
    deviceName: string,
    cmd: EquipCmd,
    strParam: string,
    sensors: seq<SensValue>,
    actors: seq<ActValue>)

  datatype Equipment = Equipment(dev: Devices.Device, sensors: map<string, SensValue>, actors: map<string, ActValue>)

  /** InitEquipment: the device is initialised and both shadow maps start empty. */
  function InitEquipment(properties: seq<Property>): (eq: Equipment)
    requires StringOrNil(properties, "Name")
    ensures eq.dev == Devices.Init(properties)
    ensures eq.sensors == map[] && eq.actors == map[]
  {
    Equipment(Devices.Init(properties), map[], map[])
  }

  /** The shadow entry Go reads for a name: the stored one, or the zero value. */
  function SensorShadow(m: map<string, SensValue>, name: string): SensValue
  {
    if name in m then m[name] else SensValue("", Float(0))
  }

  function ActorShadow(m: map<string, ActValue>, name: string): ActValue
  {
    if name in m then m[name] else ActValue("", 0, 0)
  }

  /** handleMessage as written: for CmdUpdateDevices every entry of the
      message is copied into a local `s` or `a` read out of the shadow map,
      and the local is never stored back. Hence the equipment is unchanged
      for every message. */
  method HandleMessage(eq: Equipment, message: EquipMessage) returns (r: Equipment, err: Outcome)
    ensures r == eq && err == Pass
  {
    if message.cmd == CmdUpdateDevices {
      for i := 0 to |message.sensors| {
        var sensor := message.sensors[i];
        var s := SensorShadow(eq.sensors, sensor.name);
        s := s.(name := sensor.name);
        s := s.(value := sensor.value);
      }
      for i := 0 to |message.actors| {
        var actor := message.actors[i];
        var a := ActorShadow(eq.actors, actor.name);
        a := a.(name := actor.name);
        a := a.(state := actor.state);
        a := a.(power := actor.power);
      }
    }
    r := eq;
    err := Pass;
  }

  /** readMessage: a non-blocking receive of at most one message from the
      inbound queue, which is handled; an empty queue is left alone. */
  method ReadMessage(eq: Equipment, inbox: seq<EquipMessage>) returns (r: Equipment, rest: seq<EquipMessage>, err: Outcome)
    ensures err == Pass && r == eq
    ensures inbox == [] ==> rest == []
    ensures inbox != [] ==> rest == inbox[1..]
  {
    if |inbox| > 0 {
      var handled: Outcome;
      r, handled := HandleMessage(eq, inbox[0]);
      rest := inbox[1..];
    } else {
      r, rest := eq, inbox;
    }
    err := Pass;
  }

  /** Run: one readMessage, no loop; the result is always nil. */
  method Run(eq: Equipment, inbox: seq<EquipMessage>) returns (r: Equipment, rest: seq<EquipMessage>, err: Outcome)
    ensures err == Pass && r == eq
    ensures |rest| == (if inbox == [] then 0 else |inbox| - 1)
    ensures rest == (if inbox == [] then [] else inbox[1..])
  {
    r, rest, err := ReadMessage(eq, inbox);
    err := Pass;
  }

  // ---------------------------------------------------------------------------
  // The update handleMessage evidently means to perform
  // ---------------------------------------------------------------------------

  function SensName(s: SensValue): string { s.name }

  function ActName(a: ActValue): string { a.name }

  function KeySet<T>(list: seq<T>, key: T -> string): set<string>
  {
    set i | 0 <= i < |list| :: key(list[i])
  }

  /** Entry `i` is the last one of the list with its key. */
  predicate IsLastFor<T>(list: seq<T>, key: T -> string, i: int)
  {
    0 <= i < |list| && forall j :: i < j < |list| ==> key(list[j]) != key(list[i])
  }

  /** Stores every entry under its key, in list order. */
  function Upsert<T>(m: map<string, T>, list: seq<T>, key: T -> string): (r: map<string, T>)
    ensures r.Keys == m.Keys + KeySet(list, key)
    ensures forall i :: IsLastFor(list, key, i) ==> r[key(list[i])] == list[i]
    ensures forall n :: n in m && n !in KeySet(list, key) ==> r[n] == m[n]
  {
    if |list| == 0 then m
    else
      var init := list[..|list| - 1];
      var last := list[|list| - 1];
      var prev := Upsert(m, init, key);
      UpsertStep(m, list, key, prev);
      prev[key(last) := last]
  }

  /** Storing the last entry over the map built from the others stores the
      whole list. */
  lemma UpsertStep<T>(m: map<string, T>, list: seq<T>, key: T -> string, prev: map<string, T>)
    requires |list| > 0
    requires var init := list[..|list| - 1];
      && prev.Keys == m.Keys + KeySet(init, key)
      && (forall i :: IsLastFor(init, key, i) ==> prev[key(init[i])] == init[i])
      && (forall n :: n in m && n !in KeySet(init, key) ==> prev[n] == m[n])
    ensures var r := prev[key(list[|list| - 1]) := list[|list| - 1]];
      && r.Keys == m.Keys + KeySet(list, key)
      && (forall i :: IsLastFor(list, key, i) ==> r[key(list[i])] == list[i])
      && (forall n :: n in m && n !in KeySet(list, key) ==> r[n] == m[n])
  {
    KeySetSnoc(list, key);
    UpsertLast(list, key, prev);
  }

  /** The last entry with each key is the one stored under it. */
  lemma UpsertLast<T>(list: seq<T>, key: T -> string, prev: map<string, T>)
    requires |list| > 0
    requires var init := list[..|list| - 1];
      forall i :: IsLastFor(init, key, i) ==> key(init[i]) in prev && prev[key(init[i])] == init[i]
    ensures var r := prev[key(list[|list| - 1]) := list[|list| - 1]];
      forall i :: IsLastFor(list, key, i) ==> r[key(list[i])] == list[i]
  {
    var init := list[..|list| - 1];
    var last := list[|list| - 1];
    var r := prev[key(last) := last];
    forall i | IsLastFor(list, key, i) ensures r[key(list[i])] == list[i] {
      if i < |list| - 1 {
        assert IsLastFor(init, key, i) && init[i] == list[i];
        assert key(list[i]) != key(last);
      }
    }
  }

  lemma KeySetSnoc<T>(list: seq<T>, key: T -> string)
    requires |list| > 0
    ensures KeySet(list, key) == KeySet(list[..|list| - 1], key) + {key(list[|list| - 1])}
  {
    var init := list[..|list| - 1];
    forall n | n in KeySet(list, key) ensures n in KeySet(init, key) || n == key(list[|list| - 1]) {
      var i :| 0 <= i < |list| && key(list[i]) == n;
      if i < |init| {
        assert init[i] == list[i];
      }
    }
    forall n | n in KeySet(init, key) ensures n in KeySet(list, key) {
      var i :| 0 <= i < |init| && key(init[i]) == n;
      assert list[i] == init[i];
    }
    assert key(list[|list| - 1]) in KeySet(list, key);
  }

  /** handleMessage with each updated copy stored back: after a
      CmdUpdateDevices message every named sensor and actor shadows the last
      entry the message carries for it, and no other shadow changes; any
      other command changes nothing. */
  function HandleMessageCorrected(eq: Equipment, message: EquipMessage): (r: Equipment)
    ensures r.dev == eq.dev
    ensures message.cmd != CmdUpdateDevices ==> r == eq
    ensures message.cmd == CmdUpdateDevices ==>
      && r.sensors.Keys == eq.sensors.Keys + KeySet(message.sensors, SensName)
      && r.actors.Keys == eq.actors.Keys + KeySet(message.actors, ActName)
      && (forall i :: IsLastFor(message.sensors, SensName, i) ==>
            r.sensors[message.sensors[i].name] == message.sensors[i])
      && (forall i :: IsLastFor(message.actors, ActName, i) ==>
            r.actors[message.actors[i].name] == message.actors[i])
      && (forall n :: n in eq.sensors && n !in KeySet(message.sensors, SensName) ==> r.sensors[n] == eq.sensors[n])
      && (forall n :: n in eq.actors && n !in KeySet(message.actors, ActName) ==> r.actors[n] == eq.actors[n])
  {
    if message.cmd == CmdUpdateDevices then
      eq.(sensors := Upsert(eq.sensors, message.sensors, SensName),
          actors := Upsert(eq.actors, message.actors, ActName))
    else eq
  }

  /** The discrepancy: a CmdUpdateDevices message naming a sensor the
      equipment has not heard of changes the shadow map when the copy is
      stored back, while HandleMessage as written returns the equipment
      unchanged. */
  lemma UpdateIsLost(eq: Equipment, message: EquipMessage)
    requires message.cmd == CmdUpdateDevices
    requires |message.sensors| > 0 && message.sensors[0].name !in eq.sensors
    ensures HandleMessageCorrected(eq, message).sensors != eq.sensors
  {
    assert message.sensors[0].name in KeySet(message.sensors, SensName);
  }
}
