# brewbrat device controller and chat bot, modelled in Dafny

brewbrat is a home-brewing helper with two programs:

- **The brewing controller.** It reads a device configuration: sensors, actors (relays and solid-state relays), equipment and buzzers. It instantiates each entry through a registry of type tags. Then it runs two loops:
  - the device loop records sensor readings, switches actors on request of the equipment, and after each change queues one update message per equipment, labelled with its name, on the inbox all equipment share, carrying the current readings or actor states;
  - the web loop answers commands from a browser UI.
- **The chat bot.** It watches a chat channel for messages that mention it. It splits the text after the mention into words and dispatches on the first word.

The model is pure and functional. Every Go object with mutable fields is an immutable datatype, and every method that mutates its receiver is a function from the old value to the new one. Pin writes become a trace of `PinWrite(pin, level)` values, and errors become an `Outcome` (`Pass | Fail(message)`).

Go's `interface{}` property value is a tagged union, `Value = VNil | VStr | VUint | VBool`. A sensor reading is an opaque 64-bit `Float`, never computed on. Go's random map iteration order becomes an explicit order parameter, and every contract holds for every order that enumerates the map.

The modules follow the source files:

| module | file | models |
|---|---|---|
| `Values` | values.dfy | shared value types: `Value`, `Outcome`, `Option`, `Uint64`, `Float`, `PinWrite` |
| `Strings` | strings.dfy | the `strings`/`strconv` functions the code relies on |
| `Properties` | properties.dfy | controller/control/properties.go |
| `Devices` | devices.dfy | the `Device` base of controller/control/controls.go |
| `Actors` | actors.dfy | controller/control/actors.go and the base `Actor` of controls.go |
| `Equipment` | equipment.dfy | controller/control/equipment.go |
| `Logging` | logger.dfy | controller/control/logger.go |
| `Buzzers` | buzzer.dfy | controller/control/buzzer.go |
| `Configuration` | configuration.dfy | controller/config/configuration.go |
| `Control` | control.dfy | controller/control/control.go: set-up, instantiation, web commands, property conversion |
| `ControlLoop` | control_loop.dfy | one iteration of `HandleDevices` in controller/control/control.go and controller/controller.go |
| `MainProgram` | main_program.dfy | controller/controller.go: registry literal, loading the default configuration, the underscore-translating web handler |
| `SlackBot` | slackbot.dfy | slackbot/brewbrat.go |
| `LegacyBot` | legacy_bot.dfy | the older bot, brewbrat.go |

Some files were written against different revisions of the package, so their definitions conflict. The model resolves these as follows:

- **`EquipMessage`.** One datatype carries the device name, a command (`CmdUpdateDevices`, `CmdSendNotification`, `CmdActorOn`, `CmdActorOff` or another code), a string parameter, and the sensor and actor lists.
- **`Device.Init`.** There is a single version, the one in controls.go that takes only the property list. The `name` argument that actors.go, buzzer.go and control.go pass to it is ignored, as it would be by that version.
- **`Actor`.** The no-op actor of controls.go is the kind `StubActor`. The power-recording actor of actors.go is `BaseActor`.

## Model

| member | source | states |
|---|---|---|
| Strings.NatToDecimal | controller/config/configuration.go:105-117 | the decimal rendering is a non-empty digit string with no leading zero |
| Strings.DecimalRoundTrip | controller/config/configuration.go:116-117 | reading back the decimal rendering of a number gives the number |
| Strings.NatToDecimalInjective | controller/config/configuration.go:166-187 | two numbers with the same decimal rendering are equal, so numbered names differ |
| Strings.ParseFormatRoundTrip | controller/control/control.go:323-324 | ParseUint of FormatUint(n) gives n back for every uint64 n |
| Strings.ParseUint64 | controller/control/control.go:323-324 | ParseUint in base 10: a number that fits gives its value; once the leading digits overflow 64 bits the result is the largest uint64, whatever follows them; otherwise a string that is not all digits, the empty one included, gives 0 |
| Strings.OverflowIgnoresSuffix | controller/control/control.go:323-324 | a digit run too large for 64 bits parses as the largest uint64 whatever non-digit text follows it, and a fitting run followed by a non-digit parses as 0 |
| Strings.TrimLeft | slackbot/brewbrat.go:118 | the result is a suffix of the input, starts with a non-space, and only white space was dropped |
| Strings.TrimRight | slackbot/brewbrat.go:118 | the result is a prefix of the input, ends with a non-space, and only white space was dropped |
| Strings.TrimSpaceTrimmed | slackbot/brewbrat.go:118-121 | a trimmed string has no white space at either end, and trimming it again changes nothing |
| Strings.ToLower | slackbot/brewbrat.go:121 | each ASCII upper-case letter becomes its lower-case letter, 32 code points on; every other character is kept; the length is kept and no upper-case letter remains |
| Strings.ToLowerIsLower | slackbot/brewbrat.go:121 | lower-casing is idempotent and leaves an already lower-case string unchanged |
| Strings.TrimKeepsLower | slackbot/brewbrat.go:121 | trimming a lower-case string keeps it lower-case |
| Strings.IndexOfChar | slackbot/brewbrat.go:118 | the index is the first occurrence of the character, or -1 exactly when it does not occur |
| Strings.Split | slackbot/brewbrat.go:118 | splitting gives at least one part, no part holds the separator, and joining the parts with the separator gives the input back |
| Strings.SplitHasSecondPart | brewbrat.go:101-106 | a string splits into at least two parts exactly when it holds the separator |
| Strings.IndexFrom | slackbot/brewbrat.go:148 | the result is the first occurrence of the pattern at or after the start, or -1 when there is none |
| Strings.IndexOf | slackbot/brewbrat.go:148 | strings.Index: the pattern occurs at the result and at no earlier position, or the result is -1 and it occurs nowhere |
| Strings.ReplaceChar | controller/controller.go:23 | strings.ReplaceAll for one character: every occurrence becomes the replacement and every other character is kept; the pattern is gone afterwards, and a string without it comes back unchanged |
| Strings.ReplaceCharUndo | controller/controller.go:23 | replacing back undoes a replacement whenever the replacement character did not occur in the input |
| Properties.NewProperties | controller/control/properties.go:101-103 | a new property store holds no property |
| Properties.AddProperty | controller/control/properties.go:56-59 | the name maps to a fresh record with the given type, value and comment, every other name is unchanged, and the stored value is returned |
| Properties.CountAfterAdd | controller/control/properties.go:23-25 | adding grows the count by one exactly when the name was new |
| Properties.LastNamed | controller/control/properties.go:63-67 | a property with the name is found exactly when the list holds the name, and it is an element of the list with that name |
| Properties.AddProperties | controller/control/properties.go:63-67 | every listed name maps to its last occurrence in the list, and names not in the list are unchanged |
| Properties.CountAfterAddProperties | controller/control/properties.go:23-25 | after adding a list, the count is the number of distinct names in the store and the list |
| Properties.UpdatePropertyValue | controller/control/properties.go:27-32 | an absent name inserts nothing and returns nil; a present one gets the new value while its type and comment are kept |
| Properties.InitProperty | controller/control/properties.go:34-52 | an absent name gets the default, coerced to bool for type "bool"; a present non-nil value is kept; a nil value is replaced by a non-nil default, keeping the type and comment; other names are unchanged |
| Properties.InitPropertyIdempotent | controller/control/properties.go:44-51 | after a call that leaves a non-nil value, any later InitProperty of that name changes nothing; repeating the same call always changes nothing |
| Properties.BoolDefaultCoercion | controller/control/properties.go:36-43 | with type "bool", the installed value is true exactly for the defaults "1", "true" and "True" |
| Properties.GetProperty | controller/control/properties.go:71-74 | the flag is true exactly when the name is present, and the property is the stored one or the zero value |
| Properties.GetPropertyType | controller/control/properties.go:76-82 | the flag is true exactly when the name is present; otherwise the type is "" |
| Properties.GetPropertyValue | controller/control/properties.go:84-90 | the flag is true exactly when the name is present; otherwise the value is nil |
| Properties.GetPropertyComment | controller/control/properties.go:92-98 | the flag is true exactly when the name is present; otherwise the comment is nil |
| Properties.GetAfterAdd | controller/control/properties.go:56-98 | after AddProperty, the getters return the added value, type and comment with true, and every other name reads as before |
| Devices.Init | controller/control/controls.go:41-48 | the store is AddProperties of the list; "Name" is added as the string "Unknown" only when it was absent or nil; the device name is the string value of "Name" |
| Devices.InitHolds | controller/control/controls.go:43-44 | every property name other than "Name" is present after Init exactly when it was listed, with its last listed value |
| Devices.NameIgnoresOtherEntries | controller/control/controls.go:45 | appending properties that are not named "Name" changes neither the device name nor whether Init may be called |
| Actors.Init | controller/control/actors.go:38-48 | the actor starts Off with power 0 and its device is Device.Init of the list; it has a pin exactly when it is not the controls.go stub and its "GPIO" property names a pin the host's registry knows, and that pin is the named one |
| Actors.InitBindsPin | controller/control/actors.go:41-46 | a wired actor is bound to a pin exactly when its "GPIO" property names a pin the host knows; an unwired actor always counts as bound |
| Actors.On | controller/control/actors.go:93-97 | On always succeeds, and a switching actor's state becomes StateOn; a relay writes Low (active-low), an SSR writes High, and the other kinds write nothing |
| Actors.Off | controller/control/actors.go:99-104 | Off always succeeds, and a switching actor's state becomes StateOff; a relay writes High, an SSR writes Low, and the other kinds write nothing |
| Actors.SetPower | controller/control/actors.go:66-69 | the power becomes the argument for the actors.go actor and stays the same for the no-op actor of controls.go; nothing else changes and no pin is written |
| Actors.OnStart | controller/control/actors.go:83-156 | a dummy relay always starts Off; a wired actor starts Off when host init succeeds, and otherwise returns the error and writes nothing, with or without a pin; a base actor does nothing |
| Actors.OnStop | controller/control/actors.go:88-91 | every concrete actor ends Off, and OnStop always succeeds |
| Actors.Apply | controller/control/actors.go:58-64 | a sequence of On/Off commands keeps the actor's kind, pin, device and power, and always succeeds |
| Actors.StateFollowsLastCommand | controller/control/actors.go:93-175 | after a sequence of On/Off commands, a switching actor's state is the last command and the power is unchanged; a wired actor writes one pin level per command, the last matching the state |
| Equipment.InitEquipment | controller/control/equipment.go:39-47 | the equipment's device is Device.Init of the list, and both shadow maps start empty |
| Equipment.HandleMessage | controller/control/equipment.go:59-76 | as written, handling any message leaves the equipment unchanged and returns nil, because the loop only updates local copies |
| Equipment.ReadMessage | controller/control/equipment.go:49-57 | at most one message is taken from the inbox, none when it is empty, and the equipment is unchanged |
| Equipment.Run | controller/control/equipment.go:79-82 | Run reads at most one message and returns nil; it does not loop |
| Equipment.Upsert | controller/control/equipment.go:63-73 | each listed key maps to its last listed value, and keys not listed are unchanged |
| Equipment.HandleMessageCorrected | controller/control/equipment.go:59-76 | with the updates written back: CmdUpdateDevices stores every listed sensor and actor under its name, later entries win, and other commands change nothing |
| Equipment.UpdateIsLost | controller/control/equipment.go:63-67 | an update that names a new sensor changes the corrected shadow map, while the as-written handler leaves it unchanged |
| Logging.Init | controller/control/logger.go:68-117 | an initialised logger is returned unchanged; otherwise there are no sinks, an empty queue, debug mode off, and END is "\n" on linux and "\r\n" elsewhere |
| Logging.InitIdempotent | controller/control/logger.go:69-71 | calling Init twice is the same as calling it once |
| Logging.Ready | controller/control/logger.go:119-128 | the logger is ready exactly when it is initialised or not faulted; when ready, it has been initialised |
| Logging.Add | controller/control/logger.go:130-139 | a ready logger gains the sink with an empty queue; a name that is already registered leaves the existing sink and its level unchanged |
| Logging.SetDebug | controller/control/logger.go:159-163 | debug mode is set only when the logger is ready |
| Logging.Printf | controller/control/logger.go:141-144 | exactly one entry, with the given level and text, is appended to the input queue |
| Logging.Log | controller/control/logger.go:170-206 | each Log* call queues one entry at its own level, with its tag before the message and END after it; LogDebug queues nothing when debug mode is off; nothing happens when the logger is not ready |
| Logging.Dispatch | controller/control/logger.go:88-115 | one routed entry leaves the queue and is appended to exactly those sinks the delivery rule accepts, each at most once; sink levels are kept |
| Logging.Drain | controller/control/logger.go:88-115 | routing until the queue is empty keeps the set of sinks and the debug mode |
| Logging.DrainDeliversAccepted | controller/control/logger.go:88-115 | after draining, each sink's queue has gained exactly the entries it accepts, in order |
| Logging.AllSinkGetsEverything | controller/control/logger.go:98-101 | a sink at level All receives every entry, whatever the debug mode |
| Logging.DeliversIffAccepts | controller/control/logger.go:92-113 | the first-match delivery rule is equivalent to the disjunction of its four conditions |
| Logging.LevelsAreDistinctBits | controller/control/logger.go:17-26 | the eight levels are non-zero single bits, pairwise disjoint |
| Logging.FilterExamples | controller/control/logger.go:98-107 | All receives any level; Results receives Pass and Fail; a Debug sink does not receive Pass |
| Logging.LoggedEntriesHaveOneLevel | controller/control/logger.go:170-206 | every entry queued by a run of Log* calls carries exactly one of the single-bit levels |
| Buzzers.Init | controller/control/buzzer.go:34-49 | the GPIO is the configured "GPIO" or "GPIO18", and it is stored back as a property; the pin is bound when the host knows that name; the sounds are exactly "Main" with three bits {100, 200, 20} |
| Buzzers.GpioInstalled | controller/control/buzzer.go:38 | after Init the "GPIO" property holds the chosen GPIO name, and InitProperty returns it |
| Buzzers.DummyInit | controller/control/buzzer.go:120-125 | a dummy buzzer gets the extra property "Dummy" = true, no sounds and no pin |
| Buzzers.On | controller/control/buzzer.go:66-73 | an active buzzer writes High and a dummy writes nothing; both succeed |
| Buzzers.Off | controller/control/buzzer.go:75-79 | an active buzzer writes Low and a dummy writes nothing; both succeed |
| Buzzers.PlaySoundBit | controller/control/buzzer.go:102-114 | for n bits, an active buzzer writes High, Low per bit and then a final Low (2n+1 writes) and sleeps the sum of the bits' on and off times; a dummy does nothing |
| Buzzers.PlaySound | controller/control/buzzer.go:93-100 | a known sound is played bit by bit, ending Low; an unknown name, or a dummy buzzer, writes nothing and returns nil |
| Buzzers.MainTakes660 | controller/control/buzzer.go:43-47 | the "Main" sound lasts 660 ms |
| Buzzers.PlayMainAfterInit | controller/control/buzzer.go:34-49 | a freshly initialised buzzer plays "Main" as seven writes ending Low on its GPIO, over 660 ms |
| Buzzers.OnStart | controller/control/buzzer.go:51-59 | a failed host init is returned without a write; otherwise the pin is written Low; this requires a bound pin |
| Buzzers.OnStop | controller/control/buzzer.go:61-64 | OnStop writes Low to the pin, which must be bound |
| Buzzers.DummyBuzzerCannotStart | controller/control/buzzer.go:116-125 | a dummy buzzer never has a pin, so the inherited OnStart has no pin to write to |
| Buzzers.OnStartCorrected | controller/control/buzzer.go:51-59 | corrected: a failed host init is still returned; a dummy buzzer never writes, and an active one behaves as OnStart |
| Buzzers.OnStopCorrected | controller/control/buzzer.go:61-64 | corrected: a dummy buzzer stops without a write, and an active one behaves as OnStop |
| Buzzers.CorrectedStartStopTotal | controller/control/buzzer.go:51-64 | every buzzer the two Init functions build can be started and stopped by the corrected functions; a dummy returns the host init result and writes nothing, and an active buzzer with a known pin stops with one Low write |
| Configuration.PropValueAbsent | controller/config/configuration.go:57-66 | a property name has no value exactly when no entry carries it |
| Configuration.DefaultRelayConfig | controller/config/configuration.go:155-197 | the entries are "Relay 1..n" for the relay GPIOs, then "SSR 1..m" for the SSR GPIOs, then "Dummy Relay 1..4", so there are n+m+4 in all |
| Configuration.RelayProperties | controller/config/configuration.go:165-195 | each entry's "Name" property equals its name; relay and SSR entries carry their GPIO; the four dummy relays carry none |
| Configuration.RelayTypes | controller/config/configuration.go:158-194 | relays are SimpleRelay and SSRs are SimpleSSR, or both DummyRelay in dummy mode; the trailing four are always DummyRelay |
| Configuration.NumberedNamesDistinct | controller/config/configuration.go:166-187 | the same prefix with different numbers gives different names |
| Configuration.ActorNamesDistinct | controller/config/configuration.go:165-195 | the default actor names are pairwise distinct |
| Configuration.DefaultSensorConfig | controller/config/configuration.go:99-141 | dummy mode gives three DummyTempSensor entries, "temp Sensor 1..3"; otherwise there is one TempSensor per address and then "Dummy Temp 1" |
| Configuration.SensorAddressRoundTrip | controller/config/configuration.go:115-129 | the k-th real sensor is "temp Sensor k", and its uint "Address" parses back to the k-th address |
| Configuration.DefaultBuzzerConfig | controller/config/configuration.go:200-218 | there is one "Main Buzzer", typed DummyBuzzer exactly in dummy mode and ActiveBuzzer otherwise, whose "Name" property is its name |
| Configuration.DefaultEquipment | controller/config/configuration.go:68-96 | there is one SimpleRIMM, whose "Heater" is "Dummy Relay 3" in dummy mode and "SSR 1" otherwise |
| Configuration.EquipmentHasNoName | controller/config/configuration.go:72-92 | the default equipment carries no "Name" property |
| Configuration.DefaultConfiguration | controller/config/configuration.go:144-152 | the configuration is the four generated lists and a nil error |
| Configuration.CreateSensorConfig | controller/control/controls.go:134-136 | the result is an empty sensor configuration and a nil error, whatever the arguments |
| Configuration.EquipmentReferences | controller/config/configuration.go:76-92 | the relays the default equipment names exist, as does the non-dummy sensor, but the dummy equipment's "Temp Sensor 1" differs in case from every dummy sensor name |
| Control.ToValueInterface | controller/control/control.go:318-329 | only type "uint" gives a number: the decimal's value when it is decimal and fits in 64 bits, the largest uint64 once its leading digits overflow, else 0 when the text is not decimal; every other type keeps the raw string |
| Control.UintValueRoundTrip | controller/control/control.go:318-329 | converting the decimal rendering of a uint64 with type "uint" gives the number |
| Control.ToProperty | controller/control/control.go:306-316 | name, type, hidden flag, comment and choice are copied, and the value is converted by type |
| Control.ToProperties | controller/control/control.go:296-304 | the conversion keeps the order and converts each entry |
| Control.LastNamedAfterConversion | controller/control/control.go:296-316 | the last property with a name, after conversion, is the conversion of the last configuration entry with that name |
| Control.LastConfigIn | controller/control/control.go:296-304 | the last entry with a name is an entry with that name, and there is none when no entry carries it |
| Control.StringTypedConverts | controller/control/control.go:306-329 | a name whose configuration entries are typed "string" converts to a string-valued property |
| Control.RegisteredNamesSnoc | controller/control/control.go:86-92 | appending an entry adds its name to the registered names exactly when its type tag is registered |
| Control.Instantiate | controller/control/control.go:86-118 | the keys gain exactly the names of the entries with a registered type tag; each such name holds the device built from its last entry; other keys are unchanged |
| Control.InstantiateBindsPins | controller/control/control.go:94-100 | instantiating actors whose wired entries name GPIOs the host knows keeps every actor bound to a pin |
| Control.InitController | controller/control/control.go:46-65 | the controller keeps the registry, file name and dummy flag, with every device map and the readings empty |
| Control.SetConfiguration | controller/control/control.go:86-118 | each device map gains exactly the registered names of its list; each sensor, actor, equipment and buzzer is the Init of its last registered entry (an active buzzer by Buzzer.Init, a dummy by DummyBuzzer.Init); the readings are untouched |
| Control.LoadBindsPins | controller/control/control.go:94-100 | loading a configuration whose wired actors name GPIOs the host knows leaves every actor bound to a pin |
| Control.SetDefaultConfiguration | controller/control/control.go:67-120 | the actor, sensor, equipment and buzzer maps gain the registered names of the default lists, built from GPIO21, GPIO20 and GPIO16, and from no addresses in dummy mode |
| Control.Switch | controller/control/control.go:163-170 | switching changes only the named actor, which gets the On or Off result, performs exactly that call's pin writes, sends no reply of its own, and keeps every actor bound |
| Control.HandleWebMessage | controller/control/control.go:157-211 | every command gets exactly one reply. SetRelay on a known actor turns it on for "ON" and off otherwise, with exactly that On or Off call's pin writes, then replies with the new state. RelayOn/RelayOff on a known actor switch it with the writes of On or Off, and always reply "ack". Sensor and actor queries reply with the value or "bad", and change nothing. An unknown actor or command changes nothing and replies "ack" or "Unknown". Only the named actor can change |
| Control.ReplyVocabulary | controller/control/control.go:157-211 | every reply is "ON", "OFF", "ack", "bad" or "Unknown", or the formatted reading of the queried sensor |
| Control.SetRelayThenQuery | controller/control/control.go:162-207 | a SetRelay reply is "ON" exactly for the value "ON", and a following GetActorValue query gives the same reply |
| ControlLoop.ApplyEvent | controller/control/control.go:244-272 | a reading is recorded and nothing else changes; a notification goes out only for a known sensor; ActorOn/ActorOff switch a known actor and mark the actors changed; ticks and other commands change nothing |
| ControlLoop.ReadingsCarryAll | controller/control/control.go:277-281 | the readings list built in any enumeration order names every recorded sensor |
| ControlLoop.ActorStatesCarryAll | controller/control/control.go:282-286 | the actor list built in any enumeration order has one entry per actor, carries every actor's name, state and power, and nothing else |
| ControlLoop.HandleDevicesStep | controller/control/control.go:234-294 | the controller state, notifications and pin writes are those of the applied event. After a reading, one CmdUpdateDevices message per equipment, labelled with its device name, is queued on the shared inbox, each carrying every recorded reading once and no actors; after a known actor is switched, each carries every actor's name, state and power once and no readings; otherwise nothing is queued and nothing changes |
| ControlLoop.EnumerationSize | controller/control/control.go:274 | an order that enumerates a map's keys without repetition is as long as the map |
| ControlLoop.ReadingThenQuery | controller/control/control.go:190-196 | a sensor query after a reading replies with that reading, and replies "bad" before any reading |
| ControlLoop.ReadingReachesEquipment | controller/control/control.go:273-290 | after a reading step, equipment that applies its broadcast with the updates written back holds the new reading |
| ControlLoop.ActorChangeReachesEquipment | controller/control/control.go:258-289 | after ActorOn/ActorOff on a known switching actor, every equipment's broadcast carries that actor's new state |
| MainProgram.PropValueIsLastConfig | controller/controller.go:270-290 | the value a configuration gives a property name is the value of the last entry with that name |
| MainProgram.EntryIsReady | controller/controller.go:270-303 | an entry typed only with "string" and an "Address" of type "uint" converts to properties that Device.Init accepts |
| MainProgram.EntryNamesDevice | controller/controller.go:207-253 | an entry whose "Name" property equals its name yields a device with that name |
| MainProgram.EntryWithoutName | controller/controller.go:232-239 | an entry without a "Name" property yields a device named "Unknown" |
| MainProgram.DefaultSensorsTyped | controller/controller.go:171-181 | every default sensor entry has a registered sensor type |
| MainProgram.DefaultActorsTyped | controller/controller.go:171-181 | every default actor entry has a registered actor type, and every wired one names its GPIO |
| MainProgram.DefaultEquipmentAndBuzzerTyped | controller/controller.go:171-181 | the default equipment and buzzer entries have registered types of the right kind |
| MainProgram.MainDefaults | controller/controller.go:190-197 | the default configuration main loads has registered sensor and actor entries, one equipment without a name, one "Main Buzzer", and distinct actor names |
| MainProgram.TypedEntriesLoad | controller/controller.go:207-253 | a configuration whose entries have registered types of the right kind can be loaded |
| MainProgram.DefaultsLoadable | controller/controller.go:190-253 | the default configuration can be loaded through the eight-tag registry |
| MainProgram.EntryGpio | controller/control/actors.go:41-46 | an actor built from an entry with a configured "GPIO" has its pin exactly when the host knows the configured name |
| MainProgram.TypedEntriesWireable | controller/controller.go:220-226 | typed actor entries whose configured GPIOs the host knows can all be wired |
| MainProgram.DefaultGpiosWireable | controller/controller.go:195-197 | in dummy mode no default actor is wired; otherwise the default actors can all be wired once the host knows GPIO21, GPIO20 and GPIO16 |
| MainProgram.AllRegistered | controller/controller.go:207-213 | when every type tag is registered, the instantiated names are exactly the entry names |
| MainProgram.DefaultsRegistered | controller/controller.go:171-253 | every default actor, sensor and equipment entry is instantiated, and so is "Main Buzzer" |
| MainProgram.LoadConfiguration | controller/controller.go:207-253 | the device maps hold exactly the registered names of each list, the readings are empty, each sensor, actor, equipment and buzzer is the Init of its last registered entry, and every actor is bound when every wired entry names a GPIO the host knows |
| MainProgram.MainLoad | controller/controller.go:164-259 | in dummy mode, or when the host knows GPIO21, GPIO20 and GPIO16, every actor is bound; main's device maps hold exactly the names of the default entries, "Main Buzzer" exists for the PlaySound call, every loaded actor's device name equals its key, and the one equipment answers to "Unknown" |
| MainProgram.UnknownGpioUnbinds | controller/controller.go:195-229 | outside dummy mode, a default GPIO name the host does not know leaves some relay or SSR without a pin, whose OnStart then writes to a nil pin |
| MainProgram.MainBuzzerLoaded | controller/controller.go:246-258 | the "Main Buzzer" that main plays is a DummyBuzzer without sounds or pin in dummy mode, and otherwise an ActiveBuzzer on GPIO18 that knows "Main" and has its pin exactly when the host knows GPIO18 |
| MainProgram.NamedActorsNamedByKey | controller/controller.go:220-226 | actor entries that carry their own name in a "Name" property are loaded as devices whose name equals their key |
| MainProgram.UnnamedEquipmentIsUnknown | controller/controller.go:232-239 | equipment loaded from entries without a "Name" property is named "Unknown" |
| Control.LastRegisteredOf | controller/controller.go:207-253 | every registered name has a last registered entry carrying it |
| MainProgram.WebName | controller/controller.go:23 | the name looked up holds no underscore, has the same length, and is unchanged when the command's name had none |
| MainProgram.MainHandleWebMessage | controller/controller.go:20-53 | only GetSensorValue replies, with the reading or "bad"; SetRelay, RelayOn and RelayOff switch a known actor, after translating underscores to spaces; unknown names and commands change nothing |
| MainProgram.HandlersAgree | controller/controller.go:20-53 | for a name without underscores, the main handler and the orchestrator's handler change the same actors, and agree on the reply when the main handler sends one |
| SlackBot.BotId | slackbot/brewbrat.go:16 | the bot's mention is "<@" + user + ">", starting with '<' |
| SlackBot.CommandOf | slackbot/brewbrat.go:125-140 | help, calc, list/ls and explain/ex each select exactly their own handler |
| SlackBot.Words | slackbot/brewbrat.go:118-123 | the trimmed message splits at every space into at least one part, and each word is its part lower-cased and trimmed |
| SlackBot.FirstWord | slackbot/brewbrat.go:118-125 | a message of white space, then a word, then nothing or a space and anything else has that word, lower-cased, as its first word, which picks the command |
| SlackBot.WordsAreClean | slackbot/brewbrat.go:118-123 | every word is lower-case, trimmed, and holds no space |
| SlackBot.TrimKeepsOut | slackbot/brewbrat.go:121 | trimming never introduces a character |
| SlackBot.HandleCommand | slackbot/brewbrat.go:116-143 | the first word picks the help text or a handler; any other first word gives "" and no error |
| SlackBot.DispatchOnFirstWord | slackbot/brewbrat.go:125-142 | without a handler call, the answer depends only on the first word, and an unknown first word gives "" |
| SlackBot.FindMention | slackbot/brewbrat.go:148-159 | there is no mention exactly when Index is negative; otherwise the command is the text after the first mention, which never runs past the end |
| SlackBot.HandleMessageEvent | slackbot/brewbrat.go:146-166 | text without the mention gives ("", NotForMe); otherwise the command after the first mention is handled, and an error is reported behind "Cannot handle event text: " |
| SlackBot.MentionSelectsCommand | slackbot/brewbrat.go:148-160 | in prefix + mention + command, with no '<' in the prefix, exactly that command is handled |
| SlackBot.React | slackbot/brewbrat.go:194-205 | NotForMe is dropped, whether it comes from a missing mention or from a handler, other errors are sent as "Error parsing message Event: " + error, and answers are sent, always to the event's channel |
| SlackBot.ReactToMention | slackbot/brewbrat.go:146-205 | a message mentioning the bot after a '<'-free prefix posts the command's answer to the event's channel, its error behind the "Error parsing message Event: " prefix, or nothing when that error reads "NotForMe" |
| SlackBot.MentionThenHelpWord | slackbot/brewbrat.go:118-205 | a mention followed by a space and any spelling of "help" whose lower case is "help" posts the help text to the event's channel |
| SlackBot.HelpInEitherCase | slackbot/brewbrat.go:118-205 | both " help" and " HELP" after the mention post the help text |
| LegacyBot.LegacyWords | brewbrat.go:101-105 | the untrimmed message has one word per part, each its part lower-cased and trimmed, and at least two words exactly when it holds a space |
| LegacyBot.LegacySecondWord | brewbrat.go:101-106 | after a space-free start and a space, a word followed by nothing or a space is the second word, lower-cased, which the help check reads |
| LegacyBot.LegacyHandleCommand | brewbrat.go:99-119 | the answer is the help text exactly when the second word is "help", otherwise ""; there is never an error |
| LegacyBot.ChannelReply | brewbrat.go:140 | the reply is "<" + channel + "> '" + response + "'" and a newline, each piece at its place |
| LegacyBot.ChannelEnd | brewbrat.go:140 | the first '>' in the reply closes the channel, when the channel holds none |
| LegacyBot.ChannelReplyInjective | brewbrat.go:140 | for channels without '>', the reply determines the channel and the response |
| LegacyBot.LegacyHandleMessageEvent | brewbrat.go:121-141 | text without the mention gives ("", NotForMe); otherwise the result is the wrapped help-check answer and never an error |
| LegacyBot.BareMentionHasNoSecondWord | brewbrat.go:99-135 | a message that is only the mention hands HandleCommand an empty command with one word, so the second word Go indexes does not exist |
| LegacyBot.HelpWords | brewbrat.go:101-106 | " help" has the words "" and "help" |
| LegacyBot.MentionThenHelp | brewbrat.go:121-141 | a mention followed by " help" answers with the help text, wrapped with the channel |
| LegacyBot.LegacyMentionThenHelpWord | brewbrat.go:101-141 | a mention followed by a space and any spelling of "help", such as "HELP", answers with the help text, wrapped with the channel |
| LegacyBot.MentionAt | brewbrat.go:123-134 | in prefix + mention + suffix, with no '<' in the prefix, the command is the suffix |

## Left out

- Sensors (controller/control/sensors.go) are not modelled. That file is 1-Wire hardware access and does not compile as shown. A sensor is a kind plus a `Device`, readings arrive as events, and `SendNotification` becomes a `Notification` value in the step's output. `GetActiveNetlinkAddresses` becomes the address list `adrs`.
- The brewing calculator, the ingredient lists and the web server and browser code (calc, ingredients, controller/www) are left out. The bot's handlers are function parameters, and so is the help text that `GetHelpMessage` reads from a file. The name mismatch between the `HandleExplanation` call and the ingredients package is invisible here.
- Concurrency is left out: goroutines, channels, tickers, `Control.Run`, the `HandleWebServer` loops, `logStream.Start`/`sync` and `Logger.Sync`. One loop iteration is a pure step; a channel is a sequence; the logger's routing goroutine is `Dispatch`/`Drain`.
- Hardware is abstract:
  - `gpioreg.ByName` is a set `pins` of known pin names;
  - a GPIO write is a trace entry;
  - `host.Init` is an `Outcome` parameter;
  - `time.Sleep` is an elapsed-time count;
  - `reflect.New` is a `DeviceKind` chosen through the registry.
- `%.2f` formatting of readings is a function parameter, and readings are opaque 64-bit floats.
- XML marshalling, writing the configuration file, flag parsing, the chat connectors (including the stdin alias replacement) and the `main` functions' I/O are left out.
- Device logging calls (`LogMessage` from `Init`, `On`, `Off`) are not modelled. Neither are the `Device` log wrappers, `GetProperties` or `IsDebugSet`.
- `GetDefaultsConfig` of actors.go and buzzer.go is not modelled: nothing in the modelled code calls it.
- Strings.ToLower: lower-cases ASCII letters only, while Go's `strings.ToLower` maps all of Unicode. Strings.IsSpace follows Go's `unicode.IsSpace`.
- Actors.SetPower: the power is an unbounded integer; Go's `int` width is not modelled.
- MainProgram.MainLoad: stops after instantiation. It does not run the `OnStart` loops, `PlaySound("Main")` or the goroutine start-up of controller.go:215-267. The buzzer part of that start-up is covered by MainProgram.MainBuzzerLoaded, which fixes what the loaded "Main Buzzer" is, by Buzzers.PlayMainAfterInit, which plays "Main" on such a buzzer, and by the buzzer finding below.
- ControlLoop.HandleDevicesStep: the controller.go variant prints the reading's units through `sensors[name]`, so a reading from an unregistered sensor would panic there. The model does not add that precondition; the step is the same as control.go's otherwise.
- SlackBot.HandleMessageEvent: the error number of `Errors` (1 or 2) is not observable through `Error()` and is carried only in the constants.
- LegacyBot.LegacyHandleCommand: requires the message to contain a space, because Go indexes the second word and would panic otherwise; LegacyBot.BareMentionHasNoSecondWord shows that a message holding only the mention reaches that case. The older `main` leaves the connector nil when started without arguments; that is not modelled.
- Logging.Init: does not model the panic recovery that sets `faulted`. `Init` cannot panic in the model, so `faulted` is only ever an input that `Ready` honours.
- Go's run-time panics become preconditions, and the model does not say what happens after one:
  - Devices.Init: requires `StringOrNil` on "Name", because controls.go:44 asserts that the stored name is a string.
  - Actors.Init: requires `StringIfPresent` on "GPIO" for every kind but the stub, because actors.go:44-45 asserts that the value is a string.
  - Buzzers.Init: requires `StringOrNil` on "GPIO", because buzzer.go:38 asserts that the stored value is a string.
  - Control.Loadable, Control.SensorReady, Control.ActorReady, Control.EquipmentReady and Control.BuzzerReady: demand the same string assertions for every registered entry of a configuration. They also demand that the entry's registered type is a sensor, actor, equipment or buzzer type respectively (`IsSensorKind`, `IsActorKind`, `IsEquipmentKind`, `IsBuzzerKind`). That excludes the panic of the interface assertions `.(ISensor)`, `.(IActor)`, `.(IEquipment)` and `.(IBuzzer)` at control.go:88, 96, 105 and 114 and controller.go:209, 222, 235 and 249, for example an actor entry typed "TempSensor".
  - Properties.InitProperty: requires a string default when the type is "bool", because properties.go:37 asserts `value.(string)`.
  - Logging.Printf: requires an initialised logger. Before `Init` the input channel is nil, and the send at logger.go:143 blocks for ever.
  - Actors.On, Actors.Off, Actors.OnStop and Actors.Apply: require `PinBound`, because a wired actor calls `Pin.Out` on whatever `gpioreg.ByName` returned, and that is nil for an unknown name. Actors.OnStart needs the pin only when host init succeeds.
  - Buzzers.On, Buzzers.Off, Buzzers.PlaySoundBit and Buzzers.PlaySound: require a pin for an active buzzer. Buzzers.OnStop requires one for both kinds, and Buzzers.OnStart requires one only when host init succeeds.

## Findings

| source | as written | input that shows it | evidently intended | confidence | as-written member | corrected member |
|---|---|---|---|---|---|---|
| controller/control/equipment.go:63-73 | `handleMessage` copies each shadow entry out of the map, updates the copy and never stores it back, so a `CmdUpdateDevices` message changes nothing | equipment with empty maps, given a `CmdUpdateDevices` message carrying the reading `("t", v)`: its `Sensors` map is still empty afterwards | the shadow maps receive every listed sensor and actor under its name | not executed | Equipment.HandleMessage, Equipment.UpdateIsLost | Equipment.HandleMessageCorrected |
| controller/control/buzzer.go:51-64, 116-125 | `DummyBuzzer` inherits `Buzzer.OnStart`/`OnStop`, which call `Buzzer.Off`, and that writes to `Pin`; `DummyBuzzer.Init` never sets `Pin` | the dummy configuration's "Main Buzzer" of type DummyBuzzer: controller.go:255-257 calls `OnStart` on it, which writes to a nil pin once host init succeeds | a dummy buzzer starts and stops without touching a pin, like its `On`/`Off` | not executed | Buzzers.OnStart, Buzzers.DummyBuzzerCannotStart | Buzzers.OnStartCorrected, Buzzers.CorrectedStartStopTotal |
