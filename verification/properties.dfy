/**
  The property store every device carries (controller/control/properties.go):
  a map from property name to a typed property, with upsert, an
  "install this default unless configured" operation, and lookups that report
  absence with a flag instead of an error.
 */
module Properties {
  import opened Values

  datatype Property = Property(
    name: string,
    propType: string,
    hidden: bool,
    choice: string,
    value: Value,
    comment: string)

  type Properties = map<string, Property>

  /** A store together with the value an operation on it returns. */
  datatype Stored = Stored(props: Properties, value: Value)

  /** The record AddProperty and updatePropertyValue build: Hidden and Choice
      are never copied and fall back to false and "". */
  function Record(name: string, propType: string, value: Value, comment: string): Property
  {
    Property(name, propType, false, "", value, comment)
  }

  /** `prop` as it is stored when it is added by name. */
  function Normalized(prop: Property): Property
  {
    Record(prop.name, prop.propType, prop.value, prop.comment)
  }

  /** The empty store. */
  function NewProperties(): (p: Properties)
    ensures Count(p) == 0
  {
    map[]
  }

  /** The number of properties held. */
  function Count(p: Properties): nat
  {
    |p|
  }

  /** Upsert: `name` maps to a fresh record, every other name is untouched,
      and the stored value is returned. */
  function AddProperty(p: Properties, name: string, propType: string, value: Value, comment: string): (r: Stored)
    ensures r.props.Keys == p.Keys + {name}
    ensures r.props[name] == Record(name, propType, value, comment) && r.value == value
    ensures forall n :: n in p && n != name ==> r.props[n] == p[n]
  {
    var q := p[name := Record(name, propType, value, comment)];
    Stored(q, q[name].value)
  }

  /** Adding a name grows the count by one exactly when the name was new. */
  lemma CountAfterAdd(p: Properties, name: string, propType: string, value: Value, comment: string)
    ensures Count(AddProperty(p, name, propType, value, comment).props) == Count(p) + (if name in p then 0 else 1)
  {
    var q := AddProperty(p, name, propType, value, comment).props;
    if name in p {
      assert q.Keys == p.Keys;
    } else {
      assert q.Keys == p.Keys + {name};
    }
  }

  /** The names occurring in a property list. */
  function Names(list: seq<Property>): set<string>
  {
    set i | 0 <= i < |list| :: list[i].name
  }

  /** The last property of the list with the given name, if any. */
  function LastNamed(list: seq<Property>, name: string): (r: Option<Property>)
    ensures r.Some? <==> name in Names(list)
    ensures r.Some? ==> r.value.name == name && r.value in list
  {
    if |list| == 0 then None
    else if list[|list| - 1].name == name then Some(list[|list| - 1])
    else
      var r := LastNamed(list[..|list| - 1], name);
      assert Names(list) == Names(list[..|list| - 1]) + {list[|list| - 1].name};
      r
  }

  /** Adds the properties in list order, so a later entry for a name
      overwrites an earlier one. */
  function AddProperties(p: Properties, list: seq<Property>): (r: Properties)
    ensures r.Keys == p.Keys + Names(list)
    ensures forall n :: n in Names(list) ==> r[n] == Normalized(LastNamed(list, n).value)
    ensures forall n :: n in p && n !in Names(list) ==> r[n] == p[n]
  {
    if |list| == 0 then p
    else
      var init := list[..|list| - 1];
      var last := list[|list| - 1];
      assert Names(list) == Names(init) + {last.name};
      AddProperty(AddProperties(p, init), last.name, last.propType, last.value, last.comment).props
  }

  /** The count after adding a list is the number of distinct names in the
      store and the list together. */
  lemma CountAfterAddProperties(p: Properties, list: seq<Property>)
    ensures Count(AddProperties(p, list)) == |p.Keys + Names(list)|
  {
    var r := AddProperties(p, list);
    assert r.Keys == p.Keys + Names(list);
  }

  /** The value InitProperty installs: for type "bool" the string default is
      read as a flag. */
  function CoerceDefault(propType: string, value: Value): Value
    requires propType == "bool" ==> value.VStr?
  {
    if propType == "bool" then
      VBool(value.s == "1" || value.s == "true" || value.s == "True")
    else value
  }

  /** Replaces the value of a present property, keeping its type and comment;
      an absent name is left absent and the nil value is returned. */
  function UpdatePropertyValue(p: Properties, name: string, value: Value): (r: Stored)
    ensures name !in p ==> r == Stored(p, VNil)
    ensures name in p ==> r.props == p[name := Record(name, p[name].propType, value, p[name].comment)]
    ensures name in p ==> r.value == value
  {
    if name in p then
      var q := p[name := Record(name, p[name].propType, value, p[name].comment)];
      Stored(q, q[name].value)
    else Stored(p, VNil)
  }

  /** Installs a default unless the name already carries a non-nil value, and
      returns the value the name ends up with. With type "bool" the default
      must be a string (Go asserts it). */
  function InitProperty(p: Properties, name: string, propType: string, default: Value, comment: string): (r: Stored)
    requires propType == "bool" ==> default.VStr?
    ensures name in r.props && r.value == r.props[name].value
    ensures r.props.Keys == p.Keys + {name}
    ensures forall n :: n in p && n != name ==> r.props[n] == p[n]
    ensures name !in p ==> r.props[name] == Record(name, propType, CoerceDefault(propType, default), comment)
    ensures name in p && p[name].value != VNil ==> r.props == p
    ensures name in p && p[name].value == VNil && CoerceDefault(propType, default) == VNil ==> r.props == p
    ensures name in p && p[name].value == VNil && CoerceDefault(propType, default) != VNil ==>
      r.props[name] == Record(name, p[name].propType, CoerceDefault(propType, default), p[name].comment)
  {
    var v := CoerceDefault(propType, default);
    var q :=
      if name !in p then AddProperty(p, name, propType, v, comment).props
      else if p[name].value == VNil && v != VNil then UpdatePropertyValue(p, name, v).props
      else p;
    Stored(q, q[name].value)
  }

  /** Once a name holds a non-nil value, InitProperty with any default changes
      nothing and returns that value; calling it twice with the same arguments
      is the same as calling it once. */
  lemma InitPropertyIdempotent(p: Properties, name: string, propType: string, default: Value, comment: string,
                               propType': string, default': Value, comment': string)
    requires propType == "bool" ==> default.VStr?
    requires propType' == "bool" ==> default'.VStr?
    ensures var first := InitProperty(p, name, propType, default, comment);
      first.value != VNil ==>
        InitProperty(first.props, name, propType', default', comment') == first
    ensures var first := InitProperty(p, name, propType, default, comment);
      InitProperty(first.props, name, propType, default, comment) == first
  {
  }

  /** On a fresh name a "bool" property becomes true exactly for the defaults
      "1", "true" and "True". */
  lemma BoolDefaultCoercion(p: Properties, name: string, default: string, comment: string)
    requires name !in p
    ensures InitProperty(p, name, "bool", VStr(default), comment).value
      == VBool(default == "1" || default == "true" || default == "True")
  {
  }

  /** The zero Property Go returns for an absent name. */
  function ZeroProperty(): Property
  {
    Property("", "", false, "", VNil, "")
  }

  /** A lookup: the property and true, or the zero property and false. */
  function GetProperty(p: Properties, name: string): (r: (Property, bool))
    ensures r.1 <==> name in p
    ensures r.0 == (if name in p then p[name] else ZeroProperty())
  {
    if name in p then (p[name], true) else (ZeroProperty(), false)
  }

  function GetPropertyType(p: Properties, name: string): (r: (string, bool))
    ensures r.1 <==> name in p
    ensures r.0 == (if name in p then p[name].propType else "")
  {
    if name !in p then ("", false) else (p[name].propType, true)
  }

  function GetPropertyValue(p: Properties, name: string): (r: (Value, bool))
    ensures r.1 <==> name in p
    ensures r.0 == (if name in p then p[name].value else VNil)
  {
    if name !in p then (VNil, false) else (p[name].value, true)
  }

  /** The comment, returned as a dynamically typed value (nil when absent). */
  function GetPropertyComment(p: Properties, name: string): (r: (Value, bool))
    ensures r.1 <==> name in p
    ensures r.0 == (if name in p then VStr(p[name].comment) else VNil)
  {
    if name !in p then (VNil, false) else (VStr(p[name].comment), true)
  }

  /** What was added is what the lookups report. */
  lemma GetAfterAdd(p: Properties, name: string, propType: string, value: Value, comment: string, other: string)
    ensures var q := AddProperty(p, name, propType, value, comment).props;
      && GetPropertyValue(q, name) == (value, true)
      && GetPropertyType(q, name) == (propType, true)
      && GetPropertyComment(q, name) == (VStr(comment), true)
      && (other != name ==> GetProperty(q, other) == GetProperty(p, other))
  {
  }

  /** The property that marks a device as a dummy. */
  function CreateDummyProp(): Property
  {
    Property("Dummy", "bool", false, "", VBool(true), "Is dummy device")
  }

  /** The last property of the list named `name` exists and holds a string,
      or does not exist. */
  predicate StringIfPresent(list: seq<Property>, name: string) {
    var last := LastNamed(list, name);
    last.None? || last.value.value.VStr?
  }

  /** The last property of the list named `name`, if any, holds a string or nil. */
  predicate StringOrNil(list: seq<Property>, name: string) {
    var last := LastNamed(list, name);
    last.None? || last.value.value.VStr? || last.value.value.VNil?
  }
}
