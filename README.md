# Paradox alarm integration for qToggle, modelled in Dafny

qtoggleserver-paradox connects a Paradox alarm panel to a qToggle server. A panel client keeps a
snapshot of the panel's storage, `type → key → record`, and pushes every property change it sees.
The integration mirrors what it needs in its own property store, `type → id → name → value`. The
singleton type `system` is kept flat, as `type → name → value`. qToggle ports read that store:
- area armed and alarm ports;
- zone open, alarm, trouble and tamper ports;
- output trouble and tamper ports;
- the system trouble port;
- remote button ports.

This project models the in-memory core of three revisions of the integration:

- `qtoggleserver/paradox` (newest): the `ParadoxAlarm` peripheral (`ParadoxAlarm.ParadoxAlarm`).
  - Its store is filled by label seeding, by pushed changes and by a periodic diff pass against
    the snapshot.
  - The area ports reconcile a requested arming mode with the state the panel reports.
  - The remote button ports turn button values and a millisecond clock into a time-window boolean.
- `qtoggleserver/paradox/ports` (middle): the `PAIPeripheral` peripheral (`PaiPeripheral`).
  - It parses a `serial:baud` or `host:port:password` address.
  - It stores pushed changes like the newest revision and notifies the ports.
  - Its area ports remember only the last target written (`LegacyAreaPorts`).
  - Its zone, output and system ports read the store (`DerivedPorts`).
- `qtoggleserverparadox` (oldest): another `PAIPeripheral` (`LegacyPeripheral`).
  - Its address is `serial_port:serial_baud`, formatted by `make_address` and split by `spit_address`.
  - It seeds labels without a guard.
  - It stores pushed changes without notifying anyone.

How the model is built:
- **Values and dicts.** Python values are the datatype `PyValues.Value`. Python's
  insertion-ordered dicts are `OrderedDicts.ODict`: a key sequence plus a map that agree. Order
  matters because the diff pass classifies a type by its first stored value, and the flat
  comparison merges records in order.
- **Exceptions.** An exception is an error outcome that carries the state as far as the Python
  code had changed it.
- **Mutable objects.** Peripherals and ports whose fields change are classes. Their methods are
  proved equal to pure functions, and the properties are proved about those functions.

## Model

| member | source | states |
|---|---|---|
| OrderedDicts.Get | qtoggleserver/paradox/paradoxalarm.py:253 | `dict.get`: present exactly when the key is in the dict, and then the stored value |
| OrderedDicts.Put | qtoggleserver/paradox/paradoxalarm.py:230 | item assignment: the map gets the new value; an existing key keeps its place, a new key goes last |
| OrderedDicts.First | qtoggleserver/paradox/paradoxalarm.py:268 | `next(iter(d.values()))`: absent exactly for an empty dict, else the value of the first key |
| PyValues.Or | qtoggleserver/paradox/area.py:78 | `a or b`: `a` when truthy, else `b` |
| PyValues.ParseInt | qtoggleserver/paradox/ports/base.py:61 | `int(s)` succeeds exactly on an optional sign followed by one or more ASCII digits |
| PyValues.Split | qtoggleserver/paradox/ports/base.py:54 | `str.split(sep)`: at least one piece, and no piece contains the separator |
| PyValues.IntStrRoundTrip | qtoggleserverparadox/base.py:218 | `int(str(i)) == i` for every integer |
| PyValues.IntStrInjective | qtoggleserver/paradox/area.py:17 | different integers format to different decimal strings |
| PyValues.SplitAfterPiece | qtoggleserver/paradox/ports/base.py:54 | splitting `p + sep + q`, where `p` has no separator, gives `p` followed by the pieces of `q` |
| PyValues.SplitNoSeparator | qtoggleserver/paradox/ports/base.py:54 | a string without the separator splits into itself alone |
| PyValues.JoinSplit | qtoggleserverparadox/base.py:38-39 | joining the pieces of a split with the separator gives the string back |
| PyValues.SplitLength | qtoggleserverparadox/base.py:38-39 | a split has one more piece than the string has separators |
| PyValues.CharUtf8 | qtoggleserver/paradox/ports/base.py:76 | `str.encode()` of one character: 1 to 4 bytes, exactly 1 for ASCII |
| PyValues.CharUtf8RoundTrip | qtoggleserver/paradox/ports/base.py:76 | the lead byte announces the length of a character's encoding, and decoding it gives the character back |
| PyValues.Utf8RoundTrip | qtoggleserver/paradox/ports/base.py:76 | decoding the UTF-8 encoding of a password gives its code points back |
| PyValues.Utf8Ascii | qtoggleserver/paradox/ports/base.py:76 | an ASCII password encodes to its character codes, one byte each |
| PropertyStore.GetProperty | qtoggleserver/paradox/paradoxalarm.py:249-253 | for `system`, the flat value under the name and the id plays no part; for other types, AttributeError exactly when the id holds a single value, else the record's value; None when any level is missing |
| PropertyStore.GetProperties | qtoggleserver/paradox/paradoxalarm.py:255-259 | for `system`, the whole flat dict or `{}`; otherwise what the id holds, or `{}` |
| PropertyStore.PutSlot | qtoggleserver/paradox/paradoxalarm.py:229 | after the `setdefault` chain writes a slot, the slot holds the written value |
| PropertyStore.PutSlotFrame | qtoggleserver/paradox/paradoxalarm.py:229-230 | writing one slot leaves every other `(type, key)` slot as it was |
| PropertyStore.ApplyChange | qtoggleserver/paradox/paradoxalarm.py:221 | a change whose type the snapshot lacks raises KeyError and leaves the store untouched |
| PropertyStore.PutSlotGrows | qtoggleserver/paradox/paradoxalarm.py:229 | writing one slot removes no slot and keeps the type order when the type was there |
| PropertyStore.ApplyChangeGrows | qtoggleserver/paradox/paradoxalarm.py:229-239 | a push only adds or overwrites slots: no `(type, key)` slot disappears, and a known type keeps the type list |
| PropertyStore.ApplyChangeTouches | qtoggleserver/paradox/paradoxalarm.py:220-239 | a push changes only slots of the change's own type, and nothing when the snapshot lacks that type |
| PropertyStore.WriteRecordEffect | qtoggleserver/paradox/paradoxalarm.py:229-231 | writing a property and then the label into an id's record sets both (the label winning when the property is `label`), keeps the record's other properties and every other slot |
| PropertyStore.ApplyChangeToRecord | qtoggleserver/paradox/paradoxalarm.py:221-231 | when the snapshot record has an id and a label, the new value goes under that id, the label is refreshed from the record, the id is passed on, and every other property and slot is unchanged |
| PropertyStore.ApplyChangeFlat | qtoggleserver/paradox/paradoxalarm.py:232-239 | without a record id the value goes into the flat type dict under the property name, None is passed on as the id, nothing else changes, and a `system` read under any id sees it |
| PropertyStore.ApplyChangeIdempotent | qtoggleserver/paradox/paradoxalarm.py:306-307 | applying the same change twice in a row leaves the same store as applying it once, whatever the first application raised |
| PropertyStore.ApplyChangeScalarId | qtoggleserver/paradox/paradoxalarm.py:221-229 | when the record's id holds a single value, item assignment raises TypeError and the store is unchanged |
| PropertyStore.ApplyChangeWithoutLabel | qtoggleserver/paradox/paradoxalarm.py:221-231 | when the record has an id but no label, the new value is already written under the id when the label lookup raises KeyError; the entity's other properties and every other slot are unchanged |
| PropertyStore.WritePropEffect | qtoggleserver/paradox/paradoxalarm.py:229-230 | writing one property into an id's record sets it, keeps the record's other properties and every other slot |
| PropertyStore.RecordAt | qtoggleserver/paradox/paradoxalarm.py:229 | `setdefault(id_, {})`: the stored record, or an empty one when the id is missing |
| LabelSeeding.SeedEntries | qtoggleserver/paradox/paradoxalarm.py:106-108 | stated by `SeedEntriesLabelsOnly` and `SeedEntriesLabels`: the inner seeding loop over one type's entries |
| LabelSeeding.SeedTypes | qtoggleserver/paradox/paradoxalarm.py:105-108 | stated by `SeedTypesEffect`: the outer seeding loop over the snapshot's types |
| LabelSeeding.ParseLabels | qtoggleserver/paradox/paradoxalarm.py:95-108 | stated by `ParseLabelsExact` and `CheckLoggableType`: the debug loops, then the seeding |
| LabelSeeding.SeedEntry | qtoggleserverparadox/base.py:76 | one unguarded write: KeyError with the store unchanged when the entry has no label; otherwise it completes exactly when the entry has an id that does not hold a single value, and then that label is stored under the id |
| LabelSeeding.WithType | qtoggleserver/paradox/paradoxalarm.py:108 | `setdefault(type, {})` leaves the type present in the store |
| LabelSeeding.PutLabelKeepsOther | qtoggleserver/paradox/paradoxalarm.py:108 | writing one label leaves every other property of every entity as it was |
| LabelSeeding.PutLabelEffect | qtoggleserver/paradox/paradoxalarm.py:108 | writing one label changes only that label and nothing but labels |
| LabelSeeding.SeedEntryEffect | qtoggleserver/paradox/paradoxalarm.py:106-108 | seeding one entry changes only labels, and only the label of that entry's id |
| LabelSeeding.SeedEntriesLabelsOnly | qtoggleserver/paradox/paradoxalarm.py:106-108 | seeding a type's entries changes only labels, whether it completes or stops at an exception |
| LabelSeeding.SeedEntriesLabels | qtoggleserver/paradox/paradoxalarm.py:106-108 | when seeding a type's entries completes, each id holds the label of its last labelled entry and every other label is untouched |
| LabelSeeding.SeedTypesEffect | qtoggleserver/paradox/paradoxalarm.py:105-108 | seeding the remaining types changes only labels; on success each label is the last one the snapshot gives that `(type, id)`, and others are untouched |
| LabelSeeding.SeedEntrySlots | qtoggleserver/paradox/paradoxalarm.py:108 | one entry touches at most the slot `(type, entry id)`, and only when the entry has both a label and an id |
| LabelSeeding.SeedEntriesSlots | qtoggleserver/paradox/paradoxalarm.py:106-108 | seeding a type's entries, completed or not, touches only slots of that type whose id some labelled entry carries |
| LabelSeeding.SeedEntriesSlot | qtoggleserver/paradox/paradoxalarm.py:106-108 | the same for one slot, by induction over the entries |
| LabelSeeding.SeedTypesSlots | qtoggleserver/paradox/paradoxalarm.py:105-108 | seeding the remaining types touches only slots `(type, id)` of those types where some entry with that id carries a label |
| LabelSeeding.ParseLabelsExact | qtoggleserver/paradox/paradoxalarm.py:105-108 | `parse_labels` writes `label` under `(type, entry id)` for exactly the entries that carry a label (the last one wins) and no other label, changes no property but labels, and, completed or not, touches no slot but those `(type, id)` where some snapshot entry with that id carries a label; this holds for the guarded newer revisions and for the unguarded oldest one alike |
| LabelSeeding.EntryWithoutLabel | qtoggleserverparadox/base.py:74-76 | an entry without a label makes the unguarded loop raise KeyError with nothing more written, while the guarded loop skips it |
| LabelSeeding.CheckLoggableType | qtoggleserver/paradox/paradoxalarm.py:96-103 | the debug loops succeed exactly when the type is in the snapshot and each of its entries has an id and a label |
| LabelSeeding.SeedTypeEntries | qtoggleserver/paradox/paradoxalarm.py:106-108 | the inner loop computes the seeding of one type's entries |
| LabelSeeding.SeedLabels | qtoggleserver/paradox/paradoxalarm.py:95-108 | the whole of `parse_labels` computes `ParseLabels`: the three debug loops first, then the seeding |
| Notifier.NotificationOf | qtoggleserver/paradox/paradoxalarm.py:245 | a port is told the change's type, property and old and new values, with the resolved id |
| Notifier.Notify | qtoggleserver/paradox/paradoxalarm.py:241-247 | one delivery per port, in port order, each with the same notification, failed exactly when that port raises |
| Notifier.FanOut | qtoggleserver/paradox/paradoxalarm.py:241-247 | the loop over ports delivers exactly `Notify` |
| Notifier.FailureContained | qtoggleserver/paradox/paradoxalarm.py:244-247 | after a port that raises, the remaining ports get exactly the deliveries they would get on their own |
| Notifier.BasePort | qtoggleserver/paradox/ports/base.py:249-258 | the default `on_property_change` never raises |
| Notifier.BasePortsNeverFail | qtoggleserver/paradox/ports/base.py:249-258 | a fan-out to ports that keep the default handler has no failed delivery |
| Notifier.HandleChange | qtoggleserver/paradox/paradoxalarm.py:218-247 | stated by `HandleChangeDelivers`: the store step, then one notification per port unless the store step raised |
| Notifier.HandleChangeDelivers | qtoggleserver/paradox/paradoxalarm.py:218-247 | a missing type raises KeyError before any port is told; an id holding a single value raises TypeError with the store unchanged; a record without a label raises KeyError after its property is written, and no port is told; a record with an id and a label is stored and every port is told with that id; a flat change is stored and every port is told with id None |
| StoreDiff.Then | qtoggleserver/paradox/paradoxalarm.py:276 | appending to `changes`: an exception passes through, otherwise the new changes follow the earlier ones |
| StoreDiff.PropChanges | qtoggleserver/paradox/paradoxalarm.py:273-284 | stated by `PropChangesError` and `PropChangesExact`: KeyError for a property missing from the snapshot record, else one change per differing property |
| StoreDiff.EntityChanges | qtoggleserver/paradox/paradoxalarm.py:269-284 | stated by `EntityChangesError`, `EntityHereExact` and `EntityChangesExact`: the id-keyed comparison |
| StoreDiff.MergeUpTo | qtoggleserver/paradox/paradoxalarm.py:287-289 | stated by `MergeHas` and `MergeLastWins`: the in-order `update` of the type's records |
| StoreDiff.FlatChanges | qtoggleserver/paradox/paradoxalarm.py:291-304 | stated by `FlatChangesExact`: the flat comparison against the merged records |
| StoreDiff.TypeChanges | qtoggleserver/paradox/paradoxalarm.py:268-304 | stated by `TypeChangesExact` and `TypeChangesKind`: one type's comparison, id-keyed or flat by its first value |
| StoreDiff.Dispatch | qtoggleserver/paradox/paradoxalarm.py:306-307 | stated by `DispatchKeepsTypes`: each change is handled in order, stopping at the first exception |
| StoreDiff.UpdateTypes | qtoggleserver/paradox/paradoxalarm.py:264-307 | stated by `UpdateTypesKeepsTypes`: the outer loop, skipping types the snapshot lacks and re-dispatching the accumulated list after each type |
| StoreDiff.UpdateProperties | qtoggleserver/paradox/paradoxalarm.py:261-307 | stated by `UpdatePropertiesKeepsTypes`: the whole diff pass over the store's types, starting from an empty change list |
| StoreDiff.PropChangesError | qtoggleserver/paradox/paradoxalarm.py:273-274 | comparing a stored record raises KeyError exactly when one of its properties is missing from the snapshot record |
| StoreDiff.PropChangesExact | qtoggleserver/paradox/paradoxalarm.py:273-284 | a change is produced for exactly the stored properties whose snapshot value differs |
| StoreDiff.EntityChangesError | qtoggleserver/paradox/paradoxalarm.py:269-274 | the id-keyed comparison succeeds exactly when every stored id the snapshot has holds a record whose properties the snapshot record all has |
| StoreDiff.EntityHereExact | qtoggleserver/paradox/paradoxalarm.py:269-284 | one stored id contributes exactly its own properties whose snapshot value differs, and nothing when the snapshot lacks the id |
| StoreDiff.EntityChangesExact | qtoggleserver/paradox/paradoxalarm.py:264-284 | a change is produced for exactly those stored `(id, prop)` whose snapshot value differs; ids the snapshot lacks are skipped |
| StoreDiff.MergeHas | qtoggleserver/paradox/paradoxalarm.py:287-289 | the merged record has a name exactly when some snapshot record has it |
| StoreDiff.MergeLastWins | qtoggleserver/paradox/paradoxalarm.py:287-289 | the merged value of a name is the one from the last record that has it |
| StoreDiff.FlatChangesExact | qtoggleserver/paradox/paradoxalarm.py:291-304 | a change is produced for exactly the stored flat properties whose merged value is present, not None and different |
| StoreDiff.TypeChangesExact | qtoggleserver/paradox/paradoxalarm.py:264-304 | an empty stored type raises StopIteration; a type whose first value is a record is compared id by id; any other type is compared flat against the merged records |
| StoreDiff.TypeChangesKind | qtoggleserver/paradox/paradoxalarm.py:276-304 | every change a type's comparison reports is of that type |
| StoreDiff.DispatchKeepsTypes | qtoggleserver/paradox/paradoxalarm.py:306-307 | dispatching changes of stored types makes no `(type, key)` slot disappear and keeps the type list |
| StoreDiff.DispatchTouches | qtoggleserver/paradox/paradoxalarm.py:306-307 | a dispatched list changes only slots of types the snapshot has |
| StoreDiff.UpdateTypesKeepsTypes | qtoggleserver/paradox/paradoxalarm.py:264-307 | the outer loop, re-dispatching the accumulated list after each type, makes no `(type, key)` slot disappear and keeps the type list |
| StoreDiff.UpdateTypesTouches | qtoggleserver/paradox/paradoxalarm.py:264-307 | the outer loop changes only slots of types the snapshot has |
| StoreDiff.UpdatePropertiesKeepsTypes | qtoggleserver/paradox/paradoxalarm.py:261-307 | a diff pass makes no `(type, key)` slot disappear and keeps the type list |
| StoreDiff.UpdatePropertiesSkipsAbsent | qtoggleserver/paradox/paradoxalarm.py:264-267 | a diff pass leaves every slot of a type the snapshot lacks exactly as it was |
| ParadoxAlarm.CollectPropChanges | qtoggleserver/paradox/paradoxalarm.py:273-284 | the property loop appends exactly the changes `PropChanges` describes, or stops with its KeyError |
| ParadoxAlarm.CollectEntityChanges | qtoggleserver/paradox/paradoxalarm.py:269-284 | the id loop computes `EntityChanges` |
| ParadoxAlarm.MergeRecords | qtoggleserver/paradox/paradoxalarm.py:287-289 | the `update` loop computes the in-order merge of the type's records |
| ParadoxAlarm.CollectFlatChanges | qtoggleserver/paradox/paradoxalarm.py:291-304 | the flat loop computes `FlatChanges` |
| ParadoxAlarm.CollectTypeChanges | qtoggleserver/paradox/paradoxalarm.py:264-304 | one type's comparison computes `TypeChanges` |
| ParadoxAlarm.ParadoxAlarm.constructor | qtoggleserver/paradox/paradoxalarm.py:56 | the store starts empty |
| ParadoxAlarm.ParadoxAlarm.ParseLabels | qtoggleserver/paradox/paradoxalarm.py:95-108 | the store becomes the guarded seeding of the old store, with its error |
| ParadoxAlarm.ParadoxAlarm.HandlePropertyChange | qtoggleserver/paradox/paradoxalarm.py:218-247 | store, deliveries and error are those of `HandleChange` on the old store |
| ParadoxAlarm.ParadoxAlarm.UpdateProperties | qtoggleserver/paradox/paradoxalarm.py:261-307 | store, deliveries and error are those of the diff pass on the old store |
| ParadoxAlarm.ParadoxAlarm.DispatchAll | qtoggleserver/paradox/paradoxalarm.py:306-307 | dispatching a change list gives the store, deliveries and error of `Dispatch` |
| PaiPeripheral.ParseAddress | qtoggleserver/paradox/ports/base.py:52-76 | the address fails (ValueError) exactly when a second segment is there and is not an integer; Serial exactly when the first segment starts with `/`; the first segment is the serial port or the host |
| PaiPeripheral.SerialRoundTrip | qtoggleserver/paradox/ports/base.py:56-61 | `device:baud` parses to a serial connection on that device at that baud |
| PaiPeripheral.SerialExtraSegments | qtoggleserver/paradox/ports/base.py:56-61 | segments after the baud are ignored |
| PaiPeripheral.SerialDefaultBaud | qtoggleserver/paradox/ports/base.py:56-59 | a bare device gets 9600 baud |
| PaiPeripheral.IPRoundTrip | qtoggleserver/paradox/ports/base.py:65-76 | `host:port:password` parses to an IP connection with that host, port and the UTF-8 bytes of the password |
| PaiPeripheral.IPDefaultPassword | qtoggleserver/paradox/ports/base.py:65-76 | without a third segment the password is `paradox`, encoded |
| PaiPeripheral.IPDefaults | qtoggleserver/paradox/ports/base.py:65-76 | a bare host gets port 10000 and password `paradox`, whose encoding is its seven ASCII bytes |
| PaiPeripheral.BadNumber | qtoggleserver/paradox/ports/base.py:60-71 | a non-numeric second segment is a ValueError, with or without further segments |
| PaiPeripheral.IntStrNoColon | qtoggleserver/paradox/ports/base.py:54 | a formatted number has no `:`, so it is one segment |
| PaiPeripheral.PAIPeripheral.constructor | qtoggleserver/paradox/ports/base.py:24-36 | the address is kept and the store starts empty |
| PaiPeripheral.PAIPeripheral.ParseLabels | qtoggleserver/paradox/ports/base.py:82-95 | the store becomes the guarded seeding of the old store, with its error |
| PaiPeripheral.PAIPeripheral.HandlePropertyChange | qtoggleserver/paradox/ports/base.py:183-210 | store, deliveries and error are those of `HandleChange`, the same push path as the newest revision |
| LegacyPeripheral.MakeAddress | qtoggleserverparadox/base.py:216-218 | the port, a `:`, then the baud |
| LegacyPeripheral.SplitAddress | qtoggleserverparadox/base.py:37-39 | one more piece than the address has `:`, and joining them gives the address back |
| LegacyPeripheral.SerialSettings | qtoggleserverparadox/base.py:22-23 | unpacking into two succeeds exactly when the address has one `:` (else ValueError), and the two parts format back to the address |
| LegacyPeripheral.AddressRoundTrip | qtoggleserverparadox/base.py:23-39 | `spit_address(make_address(p, b)) == [p, b]` and the constructor recovers `(p, b)` when neither has a `:` |
| LegacyPeripheral.IntBaudRoundTrip | qtoggleserverparadox/base.py:213-218 | a port built from a device and an integer baud gives the peripheral that device and the decimal baud, which `int()` reads back as the baud |
| LegacyPeripheral.ColonInPortFails | qtoggleserverparadox/base.py:23 | a serial port containing `:` makes the peripheral's constructor fail |
| LegacyPeripheral.PAIPeripheral.constructor | qtoggleserverparadox/base.py:22-33 | the serial settings are kept, there is no client or panel task, and the store is empty |
| LegacyPeripheral.PAIPeripheral.IsConnected | qtoggleserverparadox/base.py:121-131 | true exactly when client, panel and panel task are there and `connection.connected` is truthy; AttributeError when the client has no connection |
| LegacyPeripheral.PAIPeripheral.ParseLabels | qtoggleserverparadox/base.py:64-76 | the store becomes the unguarded seeding of the old store, with its error |
| LegacyPeripheral.PAIPeripheral.HandlePropertyChange | qtoggleserverparadox/base.py:171-184 | the store becomes the push-apply of the old store, the error is the push-apply's, and no port is told |
| LegacyPeripheral.NewPeripheral | qtoggleserverparadox/base.py:22-23 | construction fails with ValueError exactly when the address does not split into two, and otherwise keeps the two parts |
| PortReads.ReadProperty | qtoggleserver/paradox/paradoxalarm.py:253 | a port's `get_property(name)`: AttributeError exactly when its id holds a single value, otherwise the stored value or None |
| PortReads.PortId | qtoggleserver/paradox/zone.py:15-16 | `prefix + N + '.' + suffix`, starting with the prefix and ending with the suffix |
| PortReads.PortIdInjective | qtoggleserver/paradox/zone.py:15-16 | ports of one kind with different numbers or suffixes get different ids |
| PortReads.LabelOr | qtoggleserver/paradox/zone.py:18-19 | the stored label when truthy, else `Noun N`; never empty |
| AreaPorts.AreaPortId | qtoggleserver/paradox/area.py:16-17 | `area{N}.{suffix}`, the shared numbered id shape |
| AreaPorts.AreaPortIdsDistinct | qtoggleserver/paradox/area.py:16-17 | two area ports share an id exactly when they have the same area and suffix |
| AreaPorts.AreaLabel | qtoggleserver/paradox/area.py:19-20 | the stored area label, or `Area N` when missing or empty |
| AreaPorts.StateMapping | qtoggleserver/paradox/area.py:47-58 | state names map to codes 1..5 and codes 1..5 map to names |
| AreaPorts.StateMappingInverse | qtoggleserver/paradox/area.py:47-58 | the two directions of the mapping are inverse |
| AreaPorts.OppositeState | qtoggleserver/paradox/area.py:60-65 | disarmed → armed_away, each armed state → disarmed, anything else → itself |
| AreaPorts.ModeMapping | qtoggleserver/paradox/area.py:67-72 | a mode exists exactly for codes 1..4 |
| AreaPorts.InitialAsWritten | qtoggleserver/paradox/area.py:77-79 | as written: no request, and the stored state (or `disarmed`) becomes both the last state and the last settled state |
| AreaPorts.Initial | qtoggleserver/paradox/area.py:77-79 | as `InitialAsWritten`, except that a transitional starting state leaves `disarmed` as the last settled state (see Findings) |
| AreaPorts.ReadWithoutTransition | qtoggleserver/paradox/area.py:88 | a read that sees the last state again changes no field |
| AreaPorts.ReadSettledTransition | qtoggleserver/paradox/area.py:88-102 | a transition to a settled state records it as last and last settled, and ends the request whether fulfilled or not; a request naming no state survives with KeyError |
| AreaPorts.ReadPendingTransition | qtoggleserver/paradox/area.py:88-93 | a transition into `pending`/`arming` updates only the last state |
| AreaPorts.ReadOutstanding | qtoggleserver/paradox/area.py:105-106 | while a request is outstanding the read is its negation |
| AreaPorts.ReadExternalPending | qtoggleserver/paradox/area.py:109-115 | with no request and a transitional state: -2 after disarmed, -1 after an armed state, -5 after triggered, KeyError after a state the mapping lacks |
| AreaPorts.ReadSettledCode | qtoggleserver/paradox/area.py:117-118 | otherwise the code of the current state: disarmed 1, armed_away 2, armed_night 3, armed_home 4, triggered 5 |
| AreaPorts.ReadTotal | qtoggleserver/paradox/area.py:84-118 | from well-formed fields a read of any reported state never raises, keeps the fields well-formed and returns a code of magnitude 1..5, negative exactly when a request is outstanding or the state is transitional |
| AreaPorts.WriteAsWritten | qtoggleserver/paradox/area.py:120-121 | as written: the request is the written value itself, recorded before anything can fail |
| AreaPorts.Write | qtoggleserver/paradox/area.py:120-122 | the request is `abs(value)`, recorded before anything can fail; it equals the as-written request for non-negative values (see Findings) |
| AreaPorts.WriteCommand | qtoggleserver/paradox/area.py:122 | a command is sent exactly when `abs(value)` is 1..4 |
| AreaPorts.WriteKeepsWellFormed | qtoggleserver/paradox/area.py:120-122 | writing any of the eight choices keeps the fields well-formed, and until the panel settles the port reads the negated code of the mode sent |
| AreaPorts.InitialWellFormed | qtoggleserver/paradox/area.py:77-79 | constructed from any reported state the fields are well-formed, and equal to the as-written ones unless that state is transitional |
| AreaPorts.PendingAtStart | qtoggleserver/paradox/area.py:79 | as written, a port constructed while arming raises KeyError on every read until the panel settles; the corrected start reads -2 |
| AreaPorts.NegativeWriteSticks | qtoggleserver/paradox/area.py:121 | as written, writing -2 reads 2 while arming, raises KeyError on the next settled states and still reads 2 once disarmed; the corrected write reads -2 then 2 with the request ended |
| AreaPorts.AreaArmedPort.constructor | qtoggleserver/paradox/area.py:74-79 | the fields are the corrected `Initial` of the stored state, which differs from the source for a transitional starting state (see Findings and Left out) |
| AreaPorts.AreaArmedPort.ReadValue | qtoggleserver/paradox/area.py:84-118 | the new fields and the result are `Read` of the old fields and the stored `current_state` |
| AreaPorts.AreaArmedPort.WriteValue | qtoggleserver/paradox/area.py:120-122 | the fields become the corrected `Write` of the old ones, which differs from the source for a negative value (see Findings and Left out); the mode sent is `WriteCommand(value)`; KeyError without a mode, CommandError when the panel refuses, and the request stays recorded either way |
| AreaPorts.NewAreaArmedPort | qtoggleserver/paradox/area.py:74-79 | construction raises exactly when the area's id holds a single value; otherwise the fields are the corrected `Initial` of the stored state (see Findings and Left out) |
| AreaPorts.AlarmValue | qtoggleserver/paradox/area.py:134-135 | the stored `alarm` property as it is, None when absent |
| AreaPorts.AlarmSeesChange | qtoggleserver/paradox/area.py:134-135 | after a pushed `alarm` change for the area's record, the alarm port reads the new value |
| AreaPorts.ArmScenario | qtoggleserver/paradox/area.py:84-122 | writing 2 sends Arm, reads -2 while the panel arms, and reads 2 with the request ended once armed away |
| AreaPorts.UnfulfilledScenario | qtoggleserver/paradox/area.py:94-102 | a request the panel does not fulfil is dropped at the next settled state, which is then reported |
| AreaPorts.ExternalDisarmScenario | qtoggleserver/paradox/area.py:109-115 | disarming from a keypad while armed away reads -1 |
| LegacyAreaPorts.StateLookup | qtoggleserver/paradox/ports/area.py:39-48 | `.get`: the four non-alarm states to 1..4 and back; anything else, `triggered` and `arming` included, is None |
| LegacyAreaPorts.ReadArmed | qtoggleserver/paradox/ports/area.py:65-70 | `pending` reads as the negated target and raises TypeError before any write; any other state reads through the lookup |
| LegacyAreaPorts.ReadSettled | qtoggleserver/paradox/ports/area.py:70 | the four states read 1..4, and triggered, arming and a missing state read None |
| LegacyAreaPorts.AreaArmedPort.constructor | qtoggleserver/paradox/ports/area.py:57-60 | no target yet |
| LegacyAreaPorts.AreaArmedPort.WriteValue | qtoggleserver/paradox/ports/area.py:72-74 | a value outside 1..4 fails the mode lookup before any command; a refused command raises CommandError; the target is recorded only after success |
| LegacyAreaPorts.PendingAfterWrite | qtoggleserver/paradox/ports/area.py:66-68 | once a write succeeded `pending` reads -1..-4; before any, it raises |
| Remotes.RemoteButtonId | qtoggleserver/paradox/remote.py:42-43 | `remote{N}.button_{b}` |
| Remotes.AnyRemoteButtonId | qtoggleserver/paradox/remote.py:77-78 | `remote.button_{b}` |
| Remotes.RemoteIdsDistinct | qtoggleserver/paradox/remote.py:15-16 | single-remote ids differ for different remotes or buttons, and never equal an aggregate id |
| Remotes.RemoteLabel | qtoggleserver/paradox/remote.py:18-19 | the stored label, or `Remote N` |
| Remotes.ButtonValue | qtoggleserver/paradox/remote.py:58-59 | the stored button property, 0 when missing or falsy |
| Remotes.RawButtonValue | qtoggleserver/paradox/remote.py:99-100 | the stored button property without a default |
| Remotes.Track | qtoggleserver/paradox/remote.py:51-54 | a tracker changes only to the new value and the current time, only for a truthy value, and its value is truthy or unchanged |
| Remotes.TrackTwice | qtoggleserver/paradox/remote.py:51-54 | seeing the same value again keeps the first timestamp |
| Remotes.TrackFalsy | qtoggleserver/paradox/remote.py:51 | a zero or missing value changes nothing |
| Remotes.PressReleasePress | qtoggleserver/paradox/remote.py:51-54 | 5, 0, 5 does not restart the window |
| Remotes.PressWindow | qtoggleserver/paradox/remote.py:51-56 | after a new press, the port reads true up to and including `seen + timeout` and false after |
| Remotes.RemoteButtonPort.constructor | qtoggleserver/paradox/remote.py:34-38 | last value and timestamp start at 0 |
| Remotes.RemoteButtonPort.ReadValue | qtoggleserver/paradox/remote.py:48-56 | the tracker becomes `Track` of the button value at `now`, and the result is whether `now - timestamp <= timeout` |
| Remotes.TrackAt | qtoggleserver/paradox/remote.py:87-91 | tracking one remote (missing entries count as 0) changes that remote's entries only |
| Remotes.TrackRemotes | qtoggleserver/paradox/remote.py:85-91 | stated by `TrackRemotesIndependent`: the first loop, tracking each listed remote in turn |
| Remotes.TrackRemotesIndependent | qtoggleserver/paradox/remote.py:85-91 | after the first loop each listed remote's tracker is one `Track` of its own value, and unlisted remotes are untouched |
| Remotes.RawAndDefaultedAgree | qtoggleserver/paradox/remote.py:88 | tracking the raw value (None when missing) does the same as tracking it defaulted to 0 |
| Remotes.AnyRemoteButtonPort.constructor | qtoggleserver/paradox/remote.py:68-73 | both dicts start empty |
| Remotes.AnyRemoteButtonPort.ReadValue | qtoggleserver/paradox/remote.py:83-97 | the dicts become `TrackRemotes` of the old ones, and the result is whether some listed remote changed within `timeout` ms (inclusive) |
| Remotes.AnyRemoteButtonPort.AnyRecentOf | qtoggleserver/paradox/remote.py:93-97 | the second loop answers whether some listed remote is recent, false for no remotes |
| DerivedPorts.ZoneKey | qtoggleserver/paradox/zone.py:21-25 | the newest revision's zone key is a string that `int()` reads back as the zone number |
| DerivedPorts.LegacyZoneKey | qtoggleserver/paradox/ports/zone.py:19-23 | the middle revision's zone key is the number itself |
| DerivedPorts.ZoneKeysDistinct | qtoggleserver/paradox/zone.py:21-25 | different zones have different keys, and the two revisions' keys never coincide |
| DerivedPorts.ZonePortId | qtoggleserver/paradox/zone.py:15-16 | `zone{N}.{suffix}`, the shared numbered id shape |
| DerivedPorts.OutputPortId | qtoggleserver/paradox/ports/output.py:13-14 | `output{N}.{suffix}`, the shared numbered id shape |
| DerivedPorts.DerivedPortIdsDistinct | qtoggleserver/paradox/ports/output.py:13-14 | zone ports share an id exactly when number and suffix agree, output ports likewise, and no zone port shares an id with an output port |
| DerivedPorts.SystemPortId | qtoggleserver/paradox/ports/system.py:12-13 | `system.{suffix}` |
| DerivedPorts.ZoneLabel | qtoggleserver/paradox/zone.py:18-19 | the stored zone label, or `Zone N` |
| DerivedPorts.OutputLabel | qtoggleserver/paradox/ports/output.py:16-17 | the stored output label, or `Output N` |
| DerivedPorts.ZoneProperty | qtoggleserver/paradox/zone.py:37-38 | open, alarm and tamper read the stored property as it is, None when absent (the same for ports/zone.py) |
| DerivedPorts.OutputTamper | qtoggleserver/paradox/ports/output.py:52-53 | the stored `tamper` property of the `pgm` record, None when absent |
| DerivedPorts.SystemTrouble | qtoggleserver/paradox/ports/system.py:28-29 | the flat system `trouble` value, None when absent, whatever id is asked for |
| DerivedPorts.SystemProperties | qtoggleserver/paradox/ports/system.py:18-19 | the whole flat system dict, or `{}` |
| DerivedPorts.SystemTroubleSeesChange | qtoggleserver/paradox/ports/system.py:15-16 | after a pushed system `trouble` change, the system port reads the new value |
| DerivedPorts.Trouble | qtoggleserver/paradox/zone.py:63-68 | a single value instead of a record raises AttributeError; an empty record reads false |
| DerivedPorts.TroubleFrom | qtoggleserver/paradox/zone.py:64-68 | stated by `TroubleFromExact`: the early-return scan from one position of the record |
| DerivedPorts.TroubleFromExact | qtoggleserver/paradox/zone.py:63-68 | with string names the loop is true exactly when some `*_trouble` name has a truthy value; an AttributeError comes from a non-string name with no flag before it |
| DerivedPorts.TroubleExact | qtoggleserver/paradox/zone.py:63-68 | a record with string names reads true exactly when some property named `*_trouble` is truthy |
| DerivedPorts.ScanTrouble | qtoggleserver/paradox/zone.py:64-68 | the early-return loop computes `Trouble` |
| DerivedPorts.ZoneTrouble | qtoggleserver/paradox/ports/zone.py:61-66 | the zone trouble port reads `Trouble` of what the zone's key holds (the same in zone.py) |
| DerivedPorts.OutputTrouble | qtoggleserver/paradox/ports/output.py:35-40 | the output trouble port reads `Trouble` of the `pgm` record |

## Left out

- The supervisor and connection loops (`connect`, `disconnect`, `handle_connected`, `_supervisor_loop`, `_check_connection_loop`, `_retry_connect_indefinitely`, cleanup) are not modelled. Their point is asyncio scheduling, sleeping, timeouts and cancellation.
- The panel client is outside the model. Its snapshot is a `Snapshot` argument and its pushed change is a `Change` argument. `Paradox()`, `full_connect`, the `ps.subscribe` registration, `setup_config` and `setup_logging` are not modelled: they are foreign calls and global configuration.
- `make_paradox` of the newest revision only copies constructor arguments into the client library's global config and is not modelled. The middle revision's address parsing returns a `Connection` value instead of writing that config.
- The commands `set_area_armed_mode`, `set_zone_bypass` and `set_output_action` reach the panel. The panel's answer to the arming command is the `accepted` argument; false is a CommandError. Bypass and output actions are not modelled, because no modelled port calls them.
- Ports are `Observer` values whose `raises` predicate says whether their handler raises. What a handler does besides raising is not modelled. The log records only the deliveries and their failures.
- The wall clock is the `now` argument, in integer milliseconds.
- Debug and error logging, JSON dumps, display names, `CHOICES`, `TYPE` and `WRITABLE` are not modelled.
- `qtoggleserver/paradox/output.py`, `qtoggleserver/paradox/system.py`, `qtoggleserverparadox/zone.py` and `qtoggleserver/paradox/paradoxport.py` are not part of this model. They only delegate to lookups and id formats that the model covers.
- `qtoggleserver/paradox/ports/system.py` is modelled on its read path only.
- The constants modules are not part of this model. Arming modes are the abstract datatype `AreaPorts.ArmedMode`, and the defaults 9600, 10000 and `paradox` are written out.
- Python's `True == 1` equality is not modelled: `VBool(true)` and `VInt(1)` differ, both as dict keys and in the value comparisons of paradoxalarm.py:275 and 295, area.py:88 and remote.py:51 and 88, where Python finds `True` and `1` equal.
- `int()` accepting surrounding whitespace, underscores and non-ASCII digits is not modelled; such strings are ValueErrors here.
- `PyValues.Utf8Encode` encodes every `char`; Python's error on lone surrogates is not modelled.
- Dicts returned by `get_properties` are values here, so aliasing of a returned dict that a caller later mutates is not modelled.
- `DerivedPorts.TroubleExact` assumes every name in the record is a string. `DerivedPorts.TroubleFromExact` covers the other case, where a non-string name raises AttributeError.
- `AreaPorts.Observe`, `AreaPorts.Decide` and `AreaPorts.Read` carry no contract of their own. Their behaviour is stated by the `Read*` lemmas, `ReadTotal` and the scenario lemmas.
- `LegacyAreaPorts.AreaArmedPort.ReadValue` is a function of the target and the store, stated by `ReadArmed` and its lemmas.
- The class getters `GetPropertyOf` and `GetPropertiesOf` apply `GetProperty` and `GetProperties` to the store, so they carry no contract of their own.
- The ids, label and alarm port of `qtoggleserver/paradox/ports/area.py` are those of the newest revision, and are stated by `AreaPorts.AreaPortId`, `AreaPorts.AreaLabel` and `AreaPorts.AlarmValue`.
- `AreaPorts.AreaArmedPort.constructor` follows the corrected `Initial`, not area.py:77-79 as written: constructed while the panel reports `arming`, it keeps `disarmed` as the last settled state, where the source keeps `arming`. The as-written start is `AreaPorts.InitialAsWritten`, and `AreaPorts.PendingAtStart` shows what it does.
- `AreaPorts.NewAreaArmedPort` follows the corrected `Initial` in the same way: for a stored `current_state` of `arming` it keeps `disarmed` as the last settled state, where area.py:79 keeps `arming`.
- `AreaPorts.AreaArmedPort.WriteValue` follows the corrected `Write`, not area.py:121 as written: writing -2 records 2 as the request, where the source records -2. The as-written write is `AreaPorts.WriteAsWritten`, and `AreaPorts.NegativeWriteSticks` shows what it does.
- `StoreDiff.UpdateTypes` re-dispatches the whole accumulated change list after each type, as paradoxalarm.py:306-307 does, so the changes of earlier types reach every port again. The model does not prove this repetition harmless to the store, and it need not be: a later flat change can overwrite an id's record with a single value, and re-applying an earlier change of that id then raises TypeError.
- `PropertyStore.ApplyChangeGrows`, `StoreDiff.DispatchKeepsTypes`, `StoreDiff.UpdateTypesKeepsTypes` and `StoreDiff.UpdatePropertiesKeepsTypes` keep slots, not their contents. A flat change whose property name equals a stored id replaces that id's record with a single value, as paradoxalarm.py:239 does, and the record's properties are then gone. The model does not prove that properties survive a push or a diff pass.

## Findings

| source | as written | input that shows it | evidently intended | confidence | as-written member | corrected member |
|---|---|---|---|---|---|---|
| qtoggleserver/paradox/area.py:120-122 | `write_value` records the written value itself as the request, while the mode sent is `abs(value)`; the negative choices are offered | from `disarmed`, write -2; the panel reports `arming`, `armed_away`, `disarmed`: the port reads 2, raises KeyError twice on the lookup of -2, then reads 2 while disarmed, and the request never ends | record `abs(value)`, the code of the mode sent | not executed; medium | AreaPorts.WriteAsWritten (shown by AreaPorts.NegativeWriteSticks) | AreaPorts.Write (AreaPorts.WriteKeepsWellFormed) |
| qtoggleserver/paradox/area.py:77-79 | the starting state becomes the last settled state even when it is `arming` or `pending` | construct while the panel reports `arming`; read: KeyError on `_ARMED_STATE_MAPPING['arming']`, on every read until the panel settles | only a settled state is taken as the last settled one; otherwise the default `disarmed` | not executed; medium | AreaPorts.InitialAsWritten (shown by AreaPorts.PendingAtStart) | AreaPorts.Initial (AreaPorts.InitialWellFormed) |

The armed port's class uses the corrected `Write` and `Initial`.
