/**
  The device base (controller/control/controls.go): identity and property
  set shared by every device kind.
 */
module Devices {
  import opened Values
  import opened Properties

  datatype Device = Device(props: Properties, devName: string)

  /** The name a property list gives a device: the string value of its last
      "Name" entry, or "Unknown" when there is none or it is nil. */
  function NameOf(properties: seq<Property>): string
  {
    var last := LastNamed(properties, "Name");
    if last.Some? && last.value.value.VStr? then last.value.value.s else "Unknown"
  }

  /** Device.Init: the store is built from the list, then "Name" is
      initialised to "Unknown" unless the list supplied it. Go asserts that
      the resulting name is a string, so a supplied "Name" must hold a string
      or nil. */
  function Init(properties: seq<Property>): (d: Device)
    requires StringOrNil(properties, "Name")
    ensures d.devName == NameOf(properties)
    ensures "Name" in d.props && d.props["Name"].value == VStr(d.devName)
    ensures d.props.Keys == Names(properties) + {"Name"}
    ensures forall n :: n in Names(properties) && n != "Name" ==>
      d.props[n] == Normalized(LastNamed(properties, n).value)
    ensures var last := LastNamed(properties, "Name");
      last.Some? && last.value.value != VNil ==> d.props == AddProperties(NewProperties(), properties)
    ensures var last := LastNamed(properties, "Name");
      last.None? ==>
        d.props == AddProperties(NewProperties(), properties)["Name" := Record("Name", "string", VStr("Unknown"), "")]
    ensures var last := LastNamed(properties, "Name");
      last.Some? && last.value.value == VNil ==>
        d.props == AddProperties(NewProperties(), properties)["Name" :=
          Record("Name", last.value.propType, VStr("Unknown"), last.value.comment)]
  {
    var p := AddProperties(NewProperties(), properties);
    var r := InitProperty(p, "Name", "string", VStr("Unknown"), "");
    Device(r.props, r.value.s)
  }

  /** A property other than "Name" is held exactly when the list names it,
      with the value of its last entry. */
  lemma InitHolds(properties: seq<Property>, n: string)
    requires StringOrNil(properties, "Name") && n != "Name"
    ensures n in Init(properties).props <==> n in Names(properties)
    ensures n in Names(properties) ==> Init(properties).props[n].value == LastNamed(properties, n).value.value
  {
  }

  function Name(d: Device): string
  {
    d.devName
  }

  /** The name survives any later entries that are not named "Name". */
  lemma {:induction false} NameIgnoresOtherEntries(properties: seq<Property>, extra: seq<Property>)
    requires forall i :: 0 <= i < |extra| ==> extra[i].name != "Name"
    ensures NameOf(properties + extra) == NameOf(properties)
    ensures StringOrNil(properties + extra, "Name") == StringOrNil(properties, "Name")
    decreases |extra|
  {
    if |extra| > 0 {
      var init := extra[..|extra| - 1];
      assert (properties + extra)[..|properties + extra| - 1] == properties + init;
      NameIgnoresOtherEntries(properties, init);
    } else {
      assert properties + extra == properties;
    }
  }
}
