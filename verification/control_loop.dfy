/**
  One iteration of the orchestrator's device loop (HandleDevices in
  controller/control/control.go) as a pure step: an event comes in, the
  controller state changes, and when a reading or an actor changed every
  equipment, by name, has one CmdUpdateDevices message queued on the
  shared inbox the equipment read from. Go's map iteration order
  is random; it is a parameter here, and the contracts hold for every order.
 */
module ControlLoop {
  import opened Values
  import Devices
  import Actors
  import opened Eq = Equipment
  import opened Control

  /** What the select statement receives: a sensor reading, a message from
      an equipment, or a timer tick. */
  datatype DeviceEvent = SensorReading(name: string, value: Float) | FromEquipment(msg: EquipMessage) | Tick

  /** A request to a sensor to send a notification (the sensor driver is not
      part of this model). */
  datatype Notification = Notification(sensor: string, text: string)

  /** The state after the event and the two "need update" flags. */
  datatype Effect = Effect(
    ctrl: Control,
    sensorsChanged: bool,
    actorsChanged: bool,
    notifications: seq<Notification>,
    writes: seq<PinWrite>)

  /** The select statement's body. The flags start false on every iteration. */
  function ApplyEvent(c: Control, ev: DeviceEvent): (r: Effect)
    requires PinsBound(c)
    ensures PinsBound(r.ctrl)
    ensures r.ctrl == c.(sensorValues := r.ctrl.sensorValues, actors := r.ctrl.actors)
    ensures ev.SensorReading? ==>
      r == Effect(c.(sensorValues := c.sensorValues[ev.name := ev.value]), true, false, [], [])
    ensures ev.FromEquipment? && ev.msg.cmd == CmdSendNotification ==>
      r == Effect(c, false, false,
                  if ev.msg.deviceName in c.sensors then [Notification(ev.msg.deviceName, ev.msg.strParam)] else [], [])
    ensures ev.FromEquipment? && (ev.msg.cmd == CmdActorOn || ev.msg.cmd == CmdActorOff) ==>
      if ev.msg.deviceName in c.actors then
        var step := if ev.msg.cmd == CmdActorOn then Actors.On(c.actors[ev.msg.deviceName]) else Actors.Off(c.actors[ev.msg.deviceName]);
        r == Effect(c.(actors := c.actors[ev.msg.deviceName := step.actor]), false, true, [], step.writes)
      else r == Effect(c, false, false, [], [])
    ensures ev.Tick? || (ev.FromEquipment? && (ev.msg.cmd.CmdUpdateDevices? || ev.msg.cmd.CmdOther?)) ==>
      r == Effect(c, false, false, [], [])
  {
    match ev
    case SensorReading(name, value) =>
      Effect(c.(sensorValues := c.sensorValues[name := value]), true, false, [], [])
    case FromEquipment(msg) =>
      (match msg.cmd
       case CmdSendNotification =>
         Effect(c, false, false, if msg.deviceName in c.sensors then [Notification(msg.deviceName, msg.strParam)] else [], [])
       case CmdActorOn =>
         if msg.deviceName in c.actors then
           var step := Actors.On(c.actors[msg.deviceName]);
           Effect(c.(actors := c.actors[msg.deviceName := step.actor]), false, true, [], step.writes)
         else Effect(c, false, false, [], [])
       case CmdActorOff =>
         if msg.deviceName in c.actors then
           var step := Actors.Off(c.actors[msg.deviceName]);
           Effect(c.(actors := c.actors[msg.deviceName := step.actor]), false, true, [], step.writes)
         else Effect(c, false, false, [], [])
       case _ => Effect(c, false, false, [], []))
    case Tick => Effect(c, false, false, [], [])
  }

  /** `order` lists every key of `m` exactly once. */
  predicate Enumerates<T>(order: seq<string>, m: map<string, T>)
  {
    && (forall i :: 0 <= i < |order| ==> order[i] in m)
    && (forall n :: n in m ==> n in order)
    && (forall i, j :: 0 <= i < j < |order| ==> order[i] != order[j])
  }

  /** The iteration orders of one broadcast: the equipment, and for each
      equipment the readings and the actors. */
  datatype Orders = Orders(equipment: seq<string>, readings: seq<seq<string>>, actors: seq<seq<string>>)

  predicate OrdersFit(o: Orders, c: Control)
  {
    && Enumerates(o.equipment, c.equipment)
    && |o.readings| == |o.equipment| && |o.actors| == |o.equipment|
    && (forall k :: 0 <= k < |o.readings| ==> Enumerates(o.readings[k], c.sensorValues))
    && (forall k :: 0 <= k < |o.actors| ==> Enumerates(o.actors[k], c.actors))
  }

  /** Every recorded reading, in the given order. */
  function Readings(values: map<string, Float>, order: seq<string>): seq<SensValue>
    requires forall i :: 0 <= i < |order| ==> order[i] in values
  {
    seq(|order|, i requires 0 <= i < |order| => SensValue(order[i], values[order[i]]))
  }

  /** What an equipment is told about one actor: its device name, state and power. */
  function ActValueOf(a: Actors.Actor): ActValue
  {
    ActValue(Devices.Name(a.dev), Actors.GetState(a), Actors.GetPowerLevel(a))
  }

  /** Every actor's device name, state and power, in the given order. */
  function ActorStates(actors: map<string, Actors.Actor>, order: seq<string>): seq<ActValue>
    requires forall i :: 0 <= i < |order| ==> order[i] in actors
  {
    seq(|order|, i requires 0 <= i < |order| => ActValueOf(actors[order[i]]))
  }

  /** The list carries each recorded reading exactly once and nothing else. */
  predicate CarriesAllReadings(list: seq<SensValue>, values: map<string, Float>)
  {
    && (forall i :: 0 <= i < |list| ==> list[i].name in values && list[i].value == values[list[i].name])
    && (forall n :: n in values ==> exists i :: 0 <= i < |list| && list[i].name == n)
    && (forall i, j :: 0 <= i < j < |list| ==> list[i].name != list[j].name)
  }

  lemma ReadingsCarryAll(values: map<string, Float>, order: seq<string>)
    requires Enumerates(order, values)
    ensures CarriesAllReadings(Readings(values, order), values)
  {
    var list := Readings(values, order);
    forall n | n in values
      ensures exists i :: 0 <= i < |list| && list[i].name == n
    {
      var i :| 0 <= i < |order| && order[i] == n;
      assert list[i].name == n;
    }
  }

  /** The list has one entry per actor, carries every actor's name, state
      and power, and nothing that is not an actor's. */
  predicate CarriesAllActors(list: seq<ActValue>, actors: map<string, Actors.Actor>)
  {
    && |list| == |actors|
    && (forall n :: n in actors ==> ActValueOf(actors[n]) in list)
    && (forall i :: 0 <= i < |list| ==> exists n :: n in actors && list[i] == ActValueOf(actors[n]))
  }

  lemma ActorStatesCarryAll(actors: map<string, Actors.Actor>, order: seq<string>)
    requires Enumerates(order, actors)
    ensures CarriesAllActors(ActorStates(actors, order), actors)
  {
    var list := ActorStates(actors, order);
    EnumerationSize(order, actors);
    forall n | n in actors ensures ActValueOf(actors[n]) in list {
      var i :| 0 <= i < |order| && order[i] == n;
      assert list[i] == ActValueOf(actors[n]);
    }
    forall i | 0 <= i < |list| ensures exists n :: n in actors && list[i] == ActValueOf(actors[n]) {
      assert list[i] == ActValueOf(actors[order[i]]);
    }
  }

  /** The message each equipment is sent: its device name, CmdUpdateDevices,
      and the readings and actor states that changed. */
  function Broadcasts(c: Control, sensorsChanged: bool, actorsChanged: bool, o: Orders): seq<EquipMessage>
    requires OrdersFit(o, c)
  {
    if !(sensorsChanged || actorsChanged) then [] else
    seq(|o.equipment|, k requires 0 <= k < |o.equipment| =>
      EquipMessage(
        Devices.Name(c.equipment[o.equipment[k]].dev),
        CmdUpdateDevices,
        "",
        if sensorsChanged then Readings(c.sensorValues, o.readings[k]) else [],
        if actorsChanged then ActorStates(c.actors, o.actors[k]) else []))
  }

  datatype StepResult = StepResult(
    ctrl: Control,
    broadcasts: seq<EquipMessage>,
    notifications: seq<Notification>,
    writes: seq<PinWrite>)

  /** One HandleDevices iteration: the event is applied, then one message
      per equipment, labelled with the equipment's device name, is queued.
      After a reading each message carries every recorded reading and no
      actors; after a known actor is switched each carries every actor's
      state and no readings; anything else queues nothing and changes
      nothing. */
  function HandleDevicesStep(c: Control, ev: DeviceEvent, o: Orders): (r: StepResult)
    requires PinsBound(c) && OrdersFit(o, ApplyEvent(c, ev).ctrl)
    ensures PinsBound(r.ctrl)
    ensures var eff := ApplyEvent(c, ev);
      r.ctrl == eff.ctrl && r.notifications == eff.notifications && r.writes == eff.writes
    ensures r.ctrl.equipment == c.equipment && r.ctrl.sensors == c.sensors && r.ctrl.buzzers == c.buzzers
    ensures r.ctrl.registry == c.registry
    ensures r.broadcasts == [] || (|r.broadcasts| == |o.equipment| == |c.equipment|)
    ensures forall k :: 0 <= k < |r.broadcasts| ==>
      && r.broadcasts[k].cmd == CmdUpdateDevices
      && r.broadcasts[k].deviceName == Devices.Name(c.equipment[o.equipment[k]].dev)
    ensures ev.SensorReading? ==>
      && r.ctrl.sensorValues == c.sensorValues[ev.name := ev.value] && r.ctrl.actors == c.actors
      && |r.broadcasts| == |c.equipment|
      && forall k :: 0 <= k < |r.broadcasts| ==>
           r.broadcasts[k].actors == [] && CarriesAllReadings(r.broadcasts[k].sensors, r.ctrl.sensorValues)
    ensures ApplyEvent(c, ev).actorsChanged ==>
      && r.ctrl.sensorValues == c.sensorValues
      && |r.broadcasts| == |c.equipment|
      && forall k :: 0 <= k < |r.broadcasts| ==>
           r.broadcasts[k].sensors == [] && CarriesAllActors(r.broadcasts[k].actors, r.ctrl.actors)
    ensures !ev.SensorReading? && !ApplyEvent(c, ev).actorsChanged ==> r.ctrl == c && r.broadcasts == []
  {
    var eff := ApplyEvent(c, ev);
    var msgs := Broadcasts(eff.ctrl, eff.sensorsChanged, eff.actorsChanged, o);
    EnumerationSize(o.equipment, c.equipment);
    forall k | 0 <= k < |msgs| && eff.sensorsChanged
      ensures CarriesAllReadings(msgs[k].sensors, eff.ctrl.sensorValues)
    {
      ReadingsCarryAll(eff.ctrl.sensorValues, o.readings[k]);
    }
    forall k | 0 <= k < |msgs| && eff.actorsChanged
      ensures CarriesAllActors(msgs[k].actors, eff.ctrl.actors)
    {
      ActorStatesCarryAll(eff.ctrl.actors, o.actors[k]);
    }
    StepResult(eff.ctrl, msgs, eff.notifications, eff.writes)
  }

  /** An enumeration has as many entries as the map has keys. */
  lemma EnumerationSize<T>(order: seq<string>, m: map<string, T>)
    requires Enumerates(order, m)
    ensures |order| == |m|
  {
    assert forall n :: n in m.Keys <==> n in order;
    DistinctListSize(order, m.Keys);
  }

  /** A list without repetitions has as many entries as the set it lists. */
  lemma {:induction false} DistinctListSize(order: seq<string>, s: set<string>)
    requires forall n :: n in s <==> n in order
    requires forall i, j :: 0 <= i < j < |order| ==> order[i] != order[j]
    ensures |order| == |s|
    decreases |order|
  {
    if |order| > 0 {
      var init := order[..|order| - 1];
      var last := order[|order| - 1];
      forall n ensures n in s - {last} <==> n in init {
        if n in init {
          var i :| 0 <= i < |init| && init[i] == n;
          assert order[i] == n;
        }
        if n in s - {last} {
          var i :| 0 <= i < |order| && order[i] == n;
          assert i < |order| - 1 && init[i] == n;
        }
      }
      DistinctListSize(init, s - {last});
    }
  }

  /** After a reading, the web query for that sensor reports the formatted
      value; before any reading of it, "bad". */
  lemma ReadingThenQuery(c: Control, name: string, value: Float, o: Orders, format: Float -> string)
    requires PinsBound(c) && OrdersFit(o, ApplyEvent(c, SensorReading(name, value)).ctrl)
    ensures name !in c.sensorValues ==>
      HandleWebMessage(c, ServerCommand(CmdGetSensorValue, name, ""), format).reply == Some("bad")
    ensures var r := HandleDevicesStep(c, SensorReading(name, value), o);
      HandleWebMessage(r.ctrl, ServerCommand(CmdGetSensorValue, name, ""), format).reply == Some(format(value))
  {
  }

  /** Every equipment that applies its update (with the copies stored back,
      as HandleMessageCorrected does) ends up shadowing the new reading. */
  lemma ReadingReachesEquipment(c: Control, name: string, value: Float, o: Orders, k: nat, eq: Eq.Equipment)
    requires PinsBound(c) && OrdersFit(o, ApplyEvent(c, SensorReading(name, value)).ctrl)
    requires k < |c.equipment|
    ensures var r := HandleDevicesStep(c, SensorReading(name, value), o);
      var after := HandleMessageCorrected(eq, r.broadcasts[k]);
      name in after.sensors && after.sensors[name] == SensValue(name, value)
  {
    var r := HandleDevicesStep(c, SensorReading(name, value), o);
    var list := r.broadcasts[k].sensors;
    assert CarriesAllReadings(list, r.ctrl.sensorValues);
    assert name in r.ctrl.sensorValues;
    var i :| 0 <= i < |list| && list[i].name == name;
    assert IsLastFor(list, SensName, i);
  }

  /** After a known actor is switched, every equipment hears that actor's
      device name with its new state. */
  lemma ActorChangeReachesEquipment(c: Control, name: string, on: bool, o: Orders, k: nat)
    requires PinsBound(c) && name in c.actors && Actors.Switching(c.actors[name].kind)
    requires var ev := FromEquipment(EquipMessage(name, if on then CmdActorOn else CmdActorOff, "", [], []));
      OrdersFit(o, ApplyEvent(c, ev).ctrl)
    requires k < |c.equipment|
    ensures var ev := FromEquipment(EquipMessage(name, if on then CmdActorOn else CmdActorOff, "", [], []));
      var r := HandleDevicesStep(c, ev, o);
      ActValue(Devices.Name(c.actors[name].dev), if on then Actors.StateOn else Actors.StateOff, c.actors[name].power)
        in r.broadcasts[k].actors
  {
    var ev := FromEquipment(EquipMessage(name, if on then CmdActorOn else CmdActorOff, "", [], []));
    var eff := ApplyEvent(c, ev);
    EnumerationSize(o.equipment, c.equipment);
    var order := o.actors[k];
    assert name in eff.ctrl.actors;
    var i :| 0 <= i < |order| && order[i] == name;
    assert ActorStates(eff.ctrl.actors, order)[i]
      == ActValue(Devices.Name(c.actors[name].dev), if on then Actors.StateOn else Actors.StateOff, c.actors[name].power);
  }
}
