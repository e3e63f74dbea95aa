# Solar Manager register core, modelled in Dafny

Solar Manager is a Home Assistant integration for solar inverters, energy meters and battery management systems that talk Modbus through an MQTT bridge. This project models the part of it that carries the logic: the Modbus protocol helpers that decode notification frames and build write frames, the base device with its register store, entity registries, diagnostics record and clear timers, and the device plugins (MakeSkyBlue, MakeSkyBlue IoTrix, Megarevo, PZEM-004T v4, CHINT DDSU666, JK BMS, and the older MakeSkyBlue classifier) that turn decoded registers into named values and user commands into write frames.

Module layout, one file per module:

| file | models |
|---|---|
| `wrappers.dfy` | `Option`, `Result` and the Python exceptions the core lets escape |
| `num_text.dfy` | `int(s)`, `int(s, 16)`, the enum-key rule, `"0x%02X"`, `"%02d"`, `str.split` |
| `descriptor.dfy` | the JSON protocol descriptor (ordered register table, enum tables), store keys and values, command values, entity descriptions |
| `arith.dfy` | small division lemmas shared by the bit-field proofs |
| `crc16.dfy` | CRC-16/MODBUS as defined in section 6.2.2 of Modbus over Serial Line V1.02 (the `crcmod` "modbus" function the helpers use) |
| `tld_codec.dfy` | the current helper: TLD frame decode, the function-06 write frame, `read_data`, `write_data` |
| `legacy_codec.dfy` | the older helper: the offset-walking `parse_data` and the cached `read_data` |
| `base_device.dfy` | `BaseDevice` as a class: topics, store, registries, diagnostics, timer handles, cleanup |
| `plugin_common.dfy` | what every plugin shares: the name map, the generic notify rule with its seen-set, the entity collection of `unpack_device_info`, numeric writes |
| `skyblue_common.dfy` | what both MakeSkyBlue plugins share: the AC-voltage latch, the rated-voltage gate, the power-factor split, the AC-voltage command check |
| `makeskyblue.dfy`, `iotrix.dfy`, `megarevo.dfy`, `pzem.dfy`, `ddsu666.dfy`, `jkbms.dfy` | one class per plugin, holding a `BaseDevice` and the plugin's own fields |
| `legacy_classifier.dfy` | the older MakeSkyBlue plugin's access-based `unpack_device_info` |

Each plugin handler is a method of the plugin's class. It changes the device's fields in place and is proved equal to a pure function of the old state: `Notify` or `Command`, or `GenericAll` for the plain plugins. The lemmas state what the source promises about those functions: round trips of every bit packing, the only-this-changes frames of the store updates, one warning per unknown address, and the accept and reject cases of every command. Publishing is appended to an `outbox` sequence, and callback registration is kept in a `subscriptions` set. Timers are handle numbers with a set of cancelled handles.

The plugins call a protocol-helper variant that keys decoded registers by integer and takes a write command as a fourth `pack_data` argument. Neither helper in the repository does this, so the plugins are modelled over a decoded frame (a sequence of distinct `(register, value)` pairs) and a symbolic `Packed(slave, address, value, writeCommand)` frame. Both helpers are modelled separately on bytes.

The older helper's `write_data` and `pack_data` (protocol_helper/modbus_protocol_helper.py:44-52, 90-101) are the same as the current helper's, apart from the `await` on the callback. They are modelled once. `TldCodec.WriteData` models both `write_data`s. `TldCodec.PackDataAsWritten` models both `pack_data`s, which append the CRC high byte first. `TldCodec.PackData` is the corrected frame with the CRC low byte first (see Findings).

## Model

| member | source | states |
|---|---|---|
| Base.BaseDevice.constructor | custom_components/solar_manager/plugins/base_device.py:30-69 | a new device has the given serial and model, the segment or "", the `control/cmd` topic, the three null diagnostics exactly when enabled, and empty store, registries, timers and outbox |
| Base.BaseDevice.GetDict | custom_components/solar_manager/plugins/base_device.py:224-226 | the result is present exactly when the key is stored, and is then the stored value |
| Base.BaseDevice.GetDiagnostics | custom_components/solar_manager/plugins/base_device.py:220-222 | the whole record with keys ssid, rssi, led when diagnostics are enabled; the empty map otherwise |
| Base.BaseDevice.AsyncInit | custom_components/solar_manager/plugins/base_device.py:78-98 | subscribes the notify and online topics, and the diagnostics topic exactly when enabled; starts the notify timer, and the diagnostics timer exactly when enabled; nothing else changes |
| Base.BaseDevice.RegisterEntity | custom_components/solar_manager/plugins/base_device.py:109-112 | the registry maps the name to the entity and is otherwise unchanged |
| Base.BaseDevice.UnregisterEntity | custom_components/solar_manager/plugins/base_device.py:114-118 | a registered name is kept with value None; an absent name leaves the registry unchanged |
| Base.BaseDevice.RegisterDiagnosticEntity | custom_components/solar_manager/plugins/base_device.py:120-126 | registers the name only when diagnostics are enabled |
| Base.BaseDevice.UnregisterDiagnosticEntity | custom_components/solar_manager/plugins/base_device.py:128-136 | marks a registered name as unregistered only when diagnostics are enabled; otherwise nothing changes |
| Base.BaseDevice.ResetDiagnosticsTimer | custom_components/solar_manager/plugins/base_device.py:143-151 | when enabled, the previous handle is cancelled and a fresh one scheduled; when disabled, nothing changes; at most one handle per timer is ever live |
| Base.BaseDevice.ResetNotifyTimer | custom_components/solar_manager/plugins/base_device.py:153-159 | the previous notify handle is cancelled before a fresh one is stored, so at most one is live |
| Base.BaseDevice.ClearDiagnostics | custom_components/solar_manager/plugins/base_device.py:161-172 | ssid, rssi and led become null, and the refreshed entities are exactly the diagnostic entities still registered, when diagnostics are enabled; nothing changes and nothing is refreshed otherwise |
| Base.BaseDevice.ClearNotify | custom_components/solar_manager/plugins/base_device.py:174-180 | the store is empty afterwards, and the refreshed entities are exactly the registered entities that are not None |
| Base.BaseDevice.UpdateDiagnostics | custom_components/solar_manager/plugins/base_device.py:195-216 | ssid and rssi are taken from the payload (null when absent), led is true exactly when the payload's led is "on", the diagnostics timer restarts, and the refreshed entities are exactly the diagnostic entities still registered; when disabled, the record and the timer state are unchanged and nothing is refreshed |
| Base.BaseDevice.PerformAction | custom_components/solar_manager/plugins/base_device.py:228-232 | publishes the action name to `control/<action>` for "restart" and "reconfig", and nothing for any other action |
| Base.BaseDevice.SetLed | custom_components/solar_manager/plugins/base_device.py:234-252 | records led, publishes "on" or "off" to `control/led`, restarts the diagnostics timer, and the refreshed entities are exactly the diagnostic entities still registered; when disabled, the record, outbox and timer state are unchanged and nothing is refreshed |
| Base.BaseDevice.Cleanup | custom_components/solar_manager/plugins/base_device.py:306-325 | unsubscribes the callback topics, empties both registries and the store, cancels both timers so that no handle is live, and detaches the device |
| Base.BaseDevice.CancelTimers | custom_components/solar_manager/plugins/base_device.py:315-320 | both handles are cancelled and forgotten; no handle stays live |
| Base.BaseDeviceInfo | custom_components/solar_manager/plugins/base_device.py:256-292 | five groups, all empty without diagnostics; with diagnostics exactly the SSID and RSSI sensors, the LED switch and the restart and reconfig buttons, all diagnostic |
| Base.JoinPartsFields | custom_components/solar_manager/plugins/base_device.py:76 | splitting the '/'-joined parts at '/' gives back the parts |
| Base.TopicFields | custom_components/solar_manager/plugins/base_device.py:71-76 | a topic splits into the serial, the segment when there is one, and the parts |
| Base.TopicInjective | custom_components/solar_manager/plugins/base_device.py:71-76 | two topics are equal only when serial, segment and parts all are |
| NumText.Fields | custom_components/solar_manager/plugins/MakeSkyBlue.py:540 | `str.split` on one character always yields at least one field |
| NumText.DecTextParses | custom_components/solar_manager/plugins/MakeSkyBlueIoTrix.py:248 | `int(str(n)) == n` |
| NumText.HexKeyParses | custom_components/solar_manager/protocol_helper/modbus_protocol_helper.py:74 | a `"0x%02X"` key parses back under both `int(k, 16)` and the enum-key rule |
| NumText.HexKeyInjective | custom_components/solar_manager/protocol_helper/modbus_protocol_helper.py:74 | two addresses share a `"0x%02X"` key exactly when they are equal |
| NumText.DecTextEnumKey | custom_components/solar_manager/plugins/MakeSkyBlue.py:179 | a decimal key without "0x" parses as decimal under the enum-key rule |
| NumText.TwoDigitsParse | custom_components/solar_manager/plugins/MakeSkyBlue.py:564 | `"%02d"` text parses back and holds no ':' |
| NumText.ClockRoundTrip | custom_components/solar_manager/plugins/MakeSkyBlue.py:538-541 | the stored "HH:MM" text reads back as the same hour and minute |
| Descriptor.Table.Items | custom_components/solar_manager/plugins/PZemV04.py:62 | `dict.items()` lists every register key once, in document order, with its entry |
| Descriptor.EnumValues | custom_components/solar_manager/plugins/MakeSkyBlue.py:222 | the options are the enum's values in document order |
| Descriptor.EnumMappingFails | custom_components/solar_manager/plugins/MakeSkyBlue.py:178-181 | the enum mapping succeeds exactly when every key parses |
| Descriptor.EnumMappingKeys | custom_components/solar_manager/plugins/MakeSkyBlue.py:178-181 | the mapping is keyed by exactly the parsed keys |
| Descriptor.EnumMappingLastWins | custom_components/solar_manager/plugins/MakeSkyBlue.py:178-181 | the last entry with a given parsed key decides its text |
| Crc16.CrcField | custom_components/solar_manager/protocol_helper/protocol_helper.py:27 | the CRC field of a message is two bytes |
| Crc16.ResidueIsZero | custom_components/solar_manager/protocol_helper/protocol_helper.py:27 | a message followed by its CRC, low byte first, has CRC zero (section 6.2.2 of Modbus over Serial Line V1.02) |
| Crc16.CrcFieldChecks | custom_components/solar_manager/protocol_helper/protocol_helper.py:27 | a message followed by its CRC field passes the receiver's check |
| TldCodec.WordAt | custom_components/solar_manager/protocol_helper/modbus_protocol_helper.py:75-77 | `struct.unpack("H")` of two bytes is below 65536 |
| TldCodec.ParseData | custom_components/solar_manager/protocol_helper/modbus_protocol_helper.py:42-90 | the decoding loop builds exactly the map `ParseTld` describes |
| TldCodec.WriteBody | custom_components/solar_manager/protocol_helper/modbus_protocol_helper.py:95-100 | the request before the CRC is six bytes |
| TldCodec.WriteData | custom_components/solar_manager/protocol_helper/modbus_protocol_helper.py:32-40 | an unknown or empty register raises ValueError and the callback is not invoked; otherwise the callback receives the register and the value unchanged |
| TldCodec.ReadData | custom_components/solar_manager/protocol_helper/modbus_protocol_helper.py:25-30 | always None |
| TldCodec.KeyAtInjective | custom_components/solar_manager/protocol_helper/modbus_protocol_helper.py:74 | distinct words of a frame get distinct keys |
| TldCodec.RegistersHas | custom_components/solar_manager/protocol_helper/modbus_protocol_helper.py:72-78 | word i sits under the key of start + i with its own value |
| TldCodec.RegistersOnly | custom_components/solar_manager/protocol_helper/modbus_protocol_helper.py:72-78 | no key other than those of the decoded words |
| TldCodec.RegistersSize | custom_components/solar_manager/protocol_helper/modbus_protocol_helper.py:72-78 | one entry per word |
| TldCodec.RegistersSpec | custom_components/solar_manager/protocol_helper/modbus_protocol_helper.py:72-78 | the decoded map holds exactly the words under their keys |
| TldCodec.ParseTldSpec | custom_components/solar_manager/protocol_helper/modbus_protocol_helper.py:47-78 | a payload under 4 bytes, or one whose data part is not exactly twice the count, decodes to the empty map; otherwise to exactly count entries, entry i keyed by start + i and holding the word at data bytes [2i, 2i+2) |
| TldCodec.ParseTldValuesFit | custom_components/solar_manager/protocol_helper/modbus_protocol_helper.py:75-77 | every decoded value lies in [0, 65535] |
| TldCodec.EndiannessFallback | custom_components/solar_manager/protocol_helper/modbus_protocol_helper.py:52-58 | any byte order other than "LE" (missing, "BE" or unsupported) decodes as big-endian |
| TldCodec.TldRoundTrip | custom_components/solar_manager/protocol_helper/modbus_protocol_helper.py:60-78 | decoding an encoded frame in the same byte order gives back each word under its address, and nothing else |
| TldCodec.PackDataSpec | custom_components/solar_manager/protocol_helper/modbus_protocol_helper.py:92-103 | the corrected frame (`PackData`) is 8 bytes: slave, the descriptor's write command, address and value big-endian, then the CRC of those six bytes low byte first, so the frame passes a receiver's CRC check; a missing write command raises KeyError; a slave or command beyond a byte, or an address or value beyond 16 bits, raises struct.error |
| TldCodec.PackUnpackRoundTrip | custom_components/solar_manager/protocol_helper/modbus_protocol_helper.py:92-103 | a receiver recovers slave, command, address and value from every frame `pack_data` builds |
| TldCodec.AsWrittenSwapsCrc | custom_components/solar_manager/protocol_helper/modbus_protocol_helper.py:101-102 | the frame as written differs from the corrected one only in the order of the two CRC bytes |
| TldCodec.CounterexampleCrc | custom_components/solar_manager/protocol_helper/modbus_protocol_helper.py:101 | the CRC of the request 01 06 00 00 00 01 is 0x0A48 |
| TldCodec.AsWrittenFailsCheck | custom_components/solar_manager/protocol_helper/modbus_protocol_helper.py:101-102 | that request as written ends 0A 48 and fails the receiver's CRC check |
| LegacyCodec.Width | protocol_helper/modbus_protocol_helper.py:62-63 | a register occupies two or four bytes (`ScanWordStep` states that a UINT16 register consumes two) |
| LegacyCodec.Unsigned | protocol_helper/modbus_protocol_helper.py:76-78 | an unpacked value fits 16 or 32 bits according to its width |
| LegacyCodec.ScanStep | protocol_helper/modbus_protocol_helper.py:57-88 | a register is taken only when its bytes lie within the payload |
| LegacyCodec.DecodeRegister | protocol_helper/modbus_protocol_helper.py:58-88 | one iteration of the loop decides exactly what `ScanStep` describes |
| LegacyCodec.ScanLoop | protocol_helper/modbus_protocol_helper.py:56-88 | the loop from offset 0 computes exactly `Scan` |
| LegacyCodec.LegacyHelper.constructor | protocol_helper/modbus_protocol_helper.py:15-18 | the parsed cache starts empty |
| LegacyCodec.LegacyHelper.ParseData | protocol_helper/modbus_protocol_helper.py:54-88 | the cache after the call, and the exception that escapes, are those of `Scan` over the descriptor's registers |
| LegacyCodec.LegacyHelper.ReadData | protocol_helper/modbus_protocol_helper.py:20-42 | an unknown register raises ValueError; a decoded register answers from the cache |
| LegacyCodec.ScanBounds | protocol_helper/modbus_protocol_helper.py:65-66 | the offset never moves backwards nor past the end of the payload, and the cache only gains keys |
| LegacyCodec.ScanFrame | protocol_helper/modbus_protocol_helper.py:87 | the scan writes only under the names of the registers it walks |
| LegacyCodec.ScanUnknownEndianness | protocol_helper/modbus_protocol_helper.py:68-74 | with a byte order other than "BE" or "LE", nothing is decoded and the offset does not move |
| LegacyCodec.ScanWordStep | protocol_helper/modbus_protocol_helper.py:62-88 | a UINT16 register that fits is cached under its name and consumes exactly two bytes |
| LegacyCodec.ScanPositional | protocol_helper/modbus_protocol_helper.py:56-88 | over named UINT16 registers at or above the start, with room for all of them, the scan is the positional decode and raises nothing |
| LegacyCodec.PositionalFrame | protocol_helper/modbus_protocol_helper.py:76-88 | names that are not decoded keep their cached value |
| LegacyCodec.PositionalValue | protocol_helper/modbus_protocol_helper.py:76-88 | with distinct names, register i holds the word at bytes [offset + 2i, offset + 2i + 2) |
| LegacyCodec.ScanWords | protocol_helper/modbus_protocol_helper.py:56-88 | such a scan raises nothing, ends at offset + 2n and caches each register's word under its name |
| LegacyCodec.ReadAfterParse | protocol_helper/modbus_protocol_helper.py:29-30 | after a decode, `read_data` answers with the decoded value |
| LegacyCodec.ReadStub | protocol_helper/modbus_protocol_helper.py:32-42 | a register never decoded reads as 1, 56789 or 0 by type, times its scale |
| LegacyCodec.UnsignedRoundTrip | protocol_helper/modbus_protocol_helper.py:78 | a 16-bit word decodes back from its big- or little-endian bytes |
| LegacyClassifier.UnpackDeviceInfo | plugins/MakeSkyBlue.py:11-30 | the loop computes exactly `Classify` over the registers in document order |
| LegacyClassifier.ClassifyFails | plugins/MakeSkyBlue.py:19-20 | the classification raises KeyError exactly when some register lacks "name" or "access" |
| LegacyClassifier.Place1Groups | plugins/MakeSkyBlue.py:18-29 | placing one register appends its entry to its own group only |
| LegacyClassifier.ClassifyGroups | plugins/MakeSkyBlue.py:13-30 | without a missing key, each of the three groups is the entries of the registers placed in it, in document order |
| LegacyClassifier.PlacedMembers | plugins/MakeSkyBlue.py:18-29 | an entry is in a group exactly when some register is placed there with that name, register key and (for a select) enum values |
| LegacyClassifier.PlacedCount | plugins/MakeSkyBlue.py:18-29 | every register lands in at most one group, so the three groups together hold no more entries than there are registers |
| LegacyClassifier.RangeBeatsEnum | plugins/MakeSkyBlue.py:22-24 | a read-write register with both a range and an enum is a number |
| PluginCommon.FrameGet | custom_components/solar_manager/plugins/MakeSkyBlue.py:316-317 | the register's value is found exactly when the frame holds the register, and is then its value |
| PluginCommon.Without | custom_components/solar_manager/plugins/MakeSkyBlue.py:381 | `del` removes exactly the register's entry and keeps the others in order |
| PluginCommon.Update | custom_components/solar_manager/plugins/PZemV04.py:137-148 | the name holds the value, every other key is unchanged, and the name is reported only when its value differed and its entity is registered |
| PluginCommon.GenericAllKeys | custom_components/solar_manager/plugins/PZemV04.py:136-155 | the store gains exactly the names of the frame's named registers |
| PluginCommon.GenericAllKeeps | custom_components/solar_manager/plugins/PZemV04.py:136-155 | a key no named register writes keeps its value |
| PluginCommon.GenericAllLastWins | custom_components/solar_manager/plugins/PZemV04.py:136-148 | a named register's value stays in the store unless a later register of the frame overrides it |
| PluginCommon.GenericAllChanged | custom_components/solar_manager/plugins/PZemV04.py:139-148 | only registered entities whose name appears in the frame are reported |
| PluginCommon.GenericAllIdle | custom_components/solar_manager/plugins/PZemV04.py:139-148 | a frame repeating the stored values changes nothing and reports nothing |
| PluginCommon.GenericAllUnknown | custom_components/solar_manager/plugins/PZemV04.py:149-155 | with a seen-set, every unnamed address joins it and is warned about exactly once; without one (DDSU666, JK BMS) nothing is recorded |
| PluginCommon.NameMapSpec | custom_components/solar_manager/plugins/PZemV04.py:61-69 | the name map holds exactly the accepted registers (non-blank string names, or truthy names for DDSU666 and JK BMS), each with its own name |
| PluginCommon.NameMapNonEmpty | custom_components/solar_manager/plugins/PZemV04.py:137-138 | every mapped name is non-empty, so the `if name:` lookup succeeds |
| PluginCommon.Refreshed | custom_components/solar_manager/plugins/PZemV04.py:157-160 | the refreshed entities are exactly the changed names registered with an entity that is not None |
| PluginCommon.NotifyLoop | custom_components/solar_manager/plugins/PZemV04.py:136-155 | the loop leaves the device store and seen-set exactly as `GenericAll` describes |
| PluginCommon.Append | custom_components/solar_manager/plugins/MakeSkyBlue.py:248-257 | appends to one group only, creating the time group on first use |
| PluginCommon.CollectStops | custom_components/solar_manager/plugins/PZemV04.py:73-125 | once a register raises, the whole unpack raises with that exception |
| PluginCommon.CollectOk | custom_components/solar_manager/plugins/PZemV04.py:73-125 | the unpack succeeds exactly when no register raises |
| PluginCommon.CollectGroup | custom_components/solar_manager/plugins/PZemV04.py:73-127 | each group is the base entries followed by the entries picked for it, in register order |
| PluginCommon.PickedMembers | custom_components/solar_manager/plugins/PZemV04.py:73-125 | an entry is in a group exactly when some register contributes it there |
| PluginCommon.CollectLoop | custom_components/solar_manager/plugins/PZemV04.py:73-127 | the loop computes exactly `Collect` |
| PluginCommon.CollectNamed | custom_components/solar_manager/plugins/DDSU666.py:57-104 | the single loop computes `Collect`; on success the name map is that of every truthy-named register, and on an exception it holds the registers up to the one that raised |
| PluginCommon.BuildNameMap | custom_components/solar_manager/plugins/PZemV04.py:61-69 | the name-map loop computes exactly `NameMap` |
| PluginCommon.SensorEntry | custom_components/solar_manager/plugins/PZemV04.py:83-109 | raises exactly when an enum key does not parse; otherwise a sensor named after the register, with the parsed enum mapping when there is an enum |
| PluginCommon.SelectEntry | custom_components/solar_manager/plugins/MakeSkyBlue.py:220-236 | raises exactly when an enum key does not parse; a select exists exactly when there is an enum, with its register, the enum values as options and the parsed mapping |
| PluginCommon.TruncDivSpec | custom_components/solar_manager/plugins/PZemV04.py:178 | `int(value / scale)` rounds toward zero: the product lies between zero and the dividend, within one divisor |
| PluginCommon.NumericWrite | custom_components/solar_manager/plugins/PZemV04.py:175-178 | an int is written as is; a float is divided by the scale and truncated, and a zero scale raises |
| PluginCommon.NumericFrame | custom_components/solar_manager/plugins/DDSU666.py:128-143 | a number is packed for the given slave and register with the register's write command or the plugin default; any other value type sends nothing |
| SkyBlueCommon.Latch | custom_components/solar_manager/plugins/MakeSkyBlue.py:316-318 | a latched value is kept; an empty latch takes the frame's AC-voltage value, if any |
| SkyBlueCommon.FindRated | custom_components/solar_manager/plugins/MakeSkyBlue.py:330-338 | the lookup loop with break computes exactly `RatedLookup` |
| SkyBlueCommon.RunGate | custom_components/solar_manager/plugins/MakeSkyBlue.py:322-364 | the gate as run on the device sets the rated cache, entity bounds and changed set exactly as `Gate` describes |
| SkyBlueCommon.ForceUpdate | custom_components/solar_manager/plugins/MakeSkyBlue.py:372-380 | the factor is stored, every other key is unchanged, and it is reported when it differed whether or not an entity is registered |
| SkyBlueCommon.FindKey | custom_components/solar_manager/plugins/MakeSkyBlue.py:597-602 | the enum-key loop with break computes exactly `EnumHas` |
| SkyBlueCommon.CheckAcVoltage | custom_components/solar_manager/plugins/MakeSkyBlue.py:583-605 | the AC-voltage validation computes exactly `AcVoltageCheck` |
| SkyBlueCommon.RatedLookupFirst | custom_components/solar_manager/plugins/MakeSkyBlue.py:331-338 | the lookup finds the first entry whose key equals raw times the scale |
| SkyBlueCommon.RatedLookupSound | custom_components/solar_manager/plugins/MakeSkyBlue.py:331-338 | a rated voltage found is the value of an entry whose key matches |
| SkyBlueCommon.GateCaches | custom_components/solar_manager/plugins/MakeSkyBlue.py:322-325 | a reading equal to the cache changes nothing; any other reading is cached whatever the lookup gives |
| SkyBlueCommon.GateOnlyBounds | custom_components/solar_manager/plugins/MakeSkyBlue.py:344-364 | only the two battery-voltage entities can have their bounds changed or join the changed set |
| SkyBlueCommon.GateSetsBounds | custom_components/solar_manager/plugins/MakeSkyBlue.py:344-364 | a rated voltage in the table gives each registered battery-voltage entity exactly its table bounds |
| SkyBlueCommon.SplitRoundTrip | custom_components/solar_manager/plugins/MakeSkyBlue.py:368-370 | the high and low factor bytes fit a byte and recombine to the register value |
| SkyBlueCommon.SplitStores | custom_components/solar_manager/plugins/MakeSkyBlue.py:366-381 | the split stores both factors and changes no other key |
| SkyBlueCommon.EnumHasSpec | custom_components/solar_manager/plugins/MakeSkyBlue.py:597-602 | when every key parses, the check answers exactly whether the value is an enum key |
| SkyBlueCommon.AcVoltageAccepted | custom_components/solar_manager/plugins/MakeSkyBlue.py:583-605 | an accepted value is a number among the hex enum keys, and at least 2 once the latch holds 2 or more |
| SkyBlueCommon.EnumHasFound | custom_components/solar_manager/plugins/MakeSkyBlue.py:599-602 | a value the check accepts is one of the hex-parsed keys |
| SkyBlueCommon.AcVoltageFloor | custom_components/solar_manager/plugins/MakeSkyBlue.py:584-595 | with the latch at 2 or more, a number below 2 is rejected before the enum is consulted |
| MakeSkyBlue.DecodeSchedule | custom_components/solar_manager/plugins/MakeSkyBlue.py:449-478 | a decoded schedule has hour at most 23, minute at most 59 and interval at most 31 |
| MakeSkyBlue.CollectEntries | custom_components/solar_manager/plugins/MakeSkyBlue.py:145-305 | a missing serial setting raises KeyError; otherwise the collected entries and the extras, exactly as `Unpacked` |
| MakeSkyBlue.StepsLoop | custom_components/solar_manager/plugins/MakeSkyBlue.py:383-438 | the register loop computes exactly `Steps` |
| MakeSkyBlue.MakeSkyBlueDevice.constructor | custom_components/solar_manager/plugins/MakeSkyBlue.py:61-75 | slave 1, read command 3, write command 6, topic `sn/control/cmd`, empty name map, seen-set, caches and store |
| MakeSkyBlue.MakeSkyBlueDevice.SendNetworkTime | custom_components/solar_manager/plugins/MakeSkyBlue.py:104-143 | for a date in range, the high word to 0x1E then the low word to 0x1F; nothing otherwise |
| MakeSkyBlue.MakeSkyBlueDevice.SendConfig | custom_components/solar_manager/plugins/MakeSkyBlue.py:77-93 | the outbox gains exactly the config message (serial settings and segments to `sn/config`), then the high and low network-time words to 0x1E and 0x1F when the date is in range |
| MakeSkyBlue.MakeSkyBlueDevice.UnpackDeviceInfo | custom_components/solar_manager/plugins/MakeSkyBlue.py:145-305 | the serial settings are read in order until one is missing; only when all three are present is the name map rebuilt; the result is `Unpacked` |
| MakeSkyBlue.MakeSkyBlueDevice.HandleNotify | custom_components/solar_manager/plugins/MakeSkyBlue.py:307-447 | the store, seen-set, latch, rated cache and entity bounds become those of `Notify`; the refreshed entities are the changed ones registered; the timer restarts unless the gate raised |
| MakeSkyBlue.MakeSkyBlueDevice.LatchAndGate | custom_components/solar_manager/plugins/MakeSkyBlue.py:314-364 | the latch and the rated-voltage gate, exactly as `Latch` and `GateStage` |
| MakeSkyBlue.MakeSkyBlueDevice.FinishNotify | custom_components/solar_manager/plugins/MakeSkyBlue.py:366-447 | the power-factor split and register loop, exactly as `AfterGate`, then the timer restart |
| MakeSkyBlue.MakeSkyBlueDevice.HandleCmd | custom_components/solar_manager/plugins/MakeSkyBlue.py:483-634 | publishes the frame `Command` decides, if any, and the store takes the values the command wrote |
| MakeSkyBlue.ScheduleRoundTrip | custom_components/solar_manager/plugins/MakeSkyBlue.py:552-554 | a valid hour, minute and interval survive the command packing and the notify decode, and the word fits 16 bits |
| MakeSkyBlue.ScheduleWordRoundTrip | custom_components/solar_manager/plugins/MakeSkyBlue.py:460-462 | a word that decodes is exactly the packing of what it decodes to |
| MakeSkyBlue.TimeWordRoundTrip | custom_components/solar_manager/plugins/MakeSkyBlue.py:520-521 | the time entity's `(hour << 8) \| minute` reads back as hour and minute |
| MakeSkyBlue.NetworkTimeFields | custom_components/solar_manager/plugins/MakeSkyBlue.py:124-133 | year offset, month, day, hour, minute and second all read back from the two words sent |
| MakeSkyBlue.EntrySpec | custom_components/solar_manager/plugins/MakeSkyBlue.py:170-260 | unnamed registers contribute nothing; the schedule registers always become time entities; others follow their sensor type (sensor by default) and, outside the sensors, carry their register |
| MakeSkyBlue.UnpackedExtras | custom_components/solar_manager/plugins/MakeSkyBlue.py:266-304 | a successful unpack ends with the inverter-factor sensor and the two interval numbers (0 to 31, step 1) on 0x10020 and 0x10022 |
| MakeSkyBlue.NotifyLatch | custom_components/solar_manager/plugins/MakeSkyBlue.py:316-318 | the first AC-voltage value seen is latched and never changes afterwards |
| MakeSkyBlue.StepsFrame | custom_components/solar_manager/plugins/MakeSkyBlue.py:383-438 | a store key that no register of the loop writes keeps its value |
| MakeSkyBlue.StepsUnknown | custom_components/solar_manager/plugins/MakeSkyBlue.py:432-438 | the loop warns once per unknown address |
| MakeSkyBlue.AfterGateSplits | custom_components/solar_manager/plugins/MakeSkyBlue.py:366-381 | after the gate, the two factors hold the high and low byte of 0x6E, and the loop does not overwrite them |
| MakeSkyBlue.NotifySplitsPowerFactor | custom_components/solar_manager/plugins/MakeSkyBlue.py:366-381 | without the rated-voltage register, the notification raises nothing and stores both factors from 0x6E |
| MakeSkyBlue.AfterGateUnknown | custom_components/solar_manager/plugins/MakeSkyBlue.py:366-438 | the stages after the gate warn once per unknown address |
| MakeSkyBlue.NotifyUnknown | custom_components/solar_manager/plugins/MakeSkyBlue.py:432-438 | a whole notification warns once per unknown address |
| MakeSkyBlue.GateKeys | custom_components/solar_manager/plugins/MakeSkyBlue.py:344-364 | the gate keeps the set of registered entities |
| MakeSkyBlue.CommandScheduled | custom_components/solar_manager/plugins/MakeSkyBlue.py:494-580 | a schedule command the schedule part accepts is sent and stored exactly as that part decides |
| MakeSkyBlue.TimeSchedule | custom_components/solar_manager/plugins/MakeSkyBlue.py:510-567 | the schedule part of an in-range time command packs the stored interval and stores schedule and interval |
| MakeSkyBlue.TimeCommandKeepsInterval | custom_components/solar_manager/plugins/MakeSkyBlue.py:510-567 | a time command keeps the stored interval days (0 when none), sends hour, minute and interval to its register, and stores the schedule under its name and the interval under the interval name |
| MakeSkyBlue.TimeCommandRejects | custom_components/solar_manager/plugins/MakeSkyBlue.py:516-529 | a time value above 0xFFFF, or hour over 23 or minute over 59, sends nothing and changes nothing |
| MakeSkyBlue.IntervalCommandKeepsTime | custom_components/solar_manager/plugins/MakeSkyBlue.py:531-567 | an interval command to 0x10020 or 0x10022 goes to 0x20 or 0x22, keeps the stored time ("00:00" when none) and stores the new interval under both names |
| MakeSkyBlue.IntervalCommandRejects | custom_components/solar_manager/plugins/MakeSkyBlue.py:531-536 | an interval outside 0..31 sends nothing and changes nothing |
| MakeSkyBlue.AcVoltageLatchRule | custom_components/solar_manager/plugins/MakeSkyBlue.py:583-595 | with the latch at 2 or more, a lower value for register 2 sends nothing and changes nothing |
| MakeSkyBlue.PlainWrite | custom_components/solar_manager/plugins/MakeSkyBlue.py:607-634 | a plain numeric write is sent as given and remembered under its register number |
| IoTrix.Decide | custom_components/solar_manager/plugins/MakeSkyBlueIoTrix.py:311-348 | the command decision computes exactly `Outgoing`: the AC-voltage check for 0x300002, the frame and the stored value otherwise |
| IoTrix.IoTrixDevice.constructor | custom_components/solar_manager/plugins/MakeSkyBlueIoTrix.py:46-57 | segment `makeskyblue/iotrix`, command topic built with it, empty name map, seen-set, caches and store |
| IoTrix.IoTrixDevice.SendConfig | custom_components/solar_manager/plugins/MakeSkyBlueIoTrix.py:59-70 | only the segments, on the device's config topic |
| IoTrix.IoTrixDevice.UnpackDeviceInfo | custom_components/solar_manager/plugins/MakeSkyBlueIoTrix.py:76-182 | the name map of non-blank names, and exactly `Unpacked` |
| IoTrix.IoTrixDevice.HandleNotify | custom_components/solar_manager/plugins/MakeSkyBlueIoTrix.py:184-304 | the state becomes that of `Notify`; an exception from the gate ends it before the store is touched and the timer reset |
| IoTrix.IoTrixDevice.LatchAndGate | custom_components/solar_manager/plugins/MakeSkyBlueIoTrix.py:191-238 | the latch on 0x300002 and the gate on 0x300007, exactly as `Latch` and `GateStage` |
| IoTrix.IoTrixDevice.FinishNotify | custom_components/solar_manager/plugins/MakeSkyBlueIoTrix.py:240-304 | the version decode, the power-factor split and the register loop, exactly as `AfterGate`, then the timer restart |
| IoTrix.IoTrixDevice.HandleCmd | custom_components/solar_manager/plugins/MakeSkyBlueIoTrix.py:306-358 | publishes the frame `Command` decides, if any, and stores what it decides |
| IoTrix.VersionRoundTrip | custom_components/solar_manager/plugins/MakeSkyBlueIoTrix.py:245-248 | "V" followed by three dot-separated decimals that read back as major (below 4), minor (below 16) and patch (below 64), which together are the low twelve bits of the word |
| IoTrix.EntrySpec | custom_components/solar_manager/plugins/MakeSkyBlueIoTrix.py:97-170 | entries follow the sensor type with no default; switches carry their register and write command (6 by default) |
| IoTrix.NotifySkipsSpecial | custom_components/solar_manager/plugins/MakeSkyBlueIoTrix.py:240-296 | the version and power-factor registers never reach the generic rule, so neither is recorded as unknown; one warning per unknown address |
| IoTrix.AfterGateSkipsSpecial | custom_components/solar_manager/plugins/MakeSkyBlueIoTrix.py:240-296 | the same for the stages after the gate |
| IoTrix.AcVoltageSends | custom_components/solar_manager/plugins/MakeSkyBlueIoTrix.py:312-333 | an accepted AC-voltage command is a number, sent without a write command |
| IoTrix.CommandSends | custom_components/solar_manager/plugins/MakeSkyBlueIoTrix.py:336-358 | any other int command goes out with the register's write command (6 by default); the value sent is stored under the register's name exactly when that entity is registered, and otherwise nothing changes |
| Megarevo.BaseLoop | custom_components/solar_manager/plugins/Megarevo.py:400-464 | the date-time loop computes exactly `BaseAll` |
| Megarevo.ScheduleLoop | custom_components/solar_manager/plugins/Megarevo.py:466-499 | the schedule loop computes exactly `ScheduleAll` |
| Megarevo.RegisterLoop | custom_components/solar_manager/plugins/Megarevo.py:352-390 | the generic loop computes exactly `RegisterAll` |
| Megarevo.NotifyStages | custom_components/solar_manager/plugins/Megarevo.py:338-398 | the three stages in order compute `Notify` and keep one warning per unknown address |
| Megarevo.ScheduleCommand | custom_components/solar_manager/plugins/Megarevo.py:593-619 | the corrected schedule handler never raises |
| Megarevo.MegarevoDevice.constructor | custom_components/solar_manager/plugins/Megarevo.py:75-88 | the initial name map holds the date-time names (none called "unused") and the schedule names |
| Megarevo.MegarevoDevice.SendConfig | custom_components/solar_manager/plugins/Megarevo.py:90-101 | only the segments, to `sn/config` |
| Megarevo.MegarevoDevice.UnpackDeviceInfo | custom_components/solar_manager/plugins/Megarevo.py:119-336 | the name map is rebuilt from the descriptor alone, and the result is exactly `Unpacked` |
| Megarevo.MegarevoDevice.HandleNotify | custom_components/solar_manager/plugins/Megarevo.py:338-398 | the store and seen-set become those of `Notify`, and the timer restarts |
| Megarevo.MegarevoDevice.HandleCmd | custom_components/solar_manager/plugins/Megarevo.py:501-544 | publishes the frame `Command` decides, if any, and stores what it decides |
| Megarevo.MegarevoDevice.PerformAction | custom_components/solar_manager/plugins/Megarevo.py:111-117 | the base actions, then a button name writes 1 to its register |
| Megarevo.Swap16Involution | custom_components/solar_manager/plugins/Megarevo.py:65-69 | the half-swap keeps a 32-bit value within 32 bits and applying it twice is the identity |
| Megarevo.BaseAllKeepsUnknown | custom_components/solar_manager/plugins/Megarevo.py:400-464 | the date-time stage never touches the seen-set |
| Megarevo.ScheduleAllKeepsUnknown | custom_components/solar_manager/plugins/Megarevo.py:466-499 | the schedule stage never touches the seen-set |
| Megarevo.RegisterAllUnknown | custom_components/solar_manager/plugins/Megarevo.py:352-390 | the generic loop never records a time register as unknown, and warns once per unknown address |
| Megarevo.NotifyUnknown | custom_components/solar_manager/plugins/Megarevo.py:338-398 | the same for a whole notification |
| Megarevo.RegisterStepStores | custom_components/solar_manager/plugins/Megarevo.py:352-383 | a named register outside the time registers is stored half-swapped inside 0x303153..0x303181 and unchanged elsewhere |
| Megarevo.BaseStepSpec | custom_components/solar_manager/plugins/Megarevo.py:404-464 | an unchanged raw value is skipped; the raw value is cached exactly when both bytes pass; the high byte is stored even when the low byte then fails |
| Megarevo.ScheduleStepSpec | custom_components/solar_manager/plugins/Megarevo.py:470-499 | hour = v div 100 and minute = v mod 100; a valid time is stored as "HH:MM" and the raw value cached; anything else changes nothing |
| Megarevo.ScheduleCommandRoundTrip | custom_components/solar_manager/plugins/Megarevo.py:593-619 | "HH:MM" and `(hour << 8) \| minute` both send hour*100+minute, which the decode reads back as the same time; the device's echo is then skipped |
| Megarevo.ScheduleCommandRejects | custom_components/solar_manager/plugins/Megarevo.py:595-613 | an out-of-range time sends nothing and changes nothing |
| Megarevo.ScheduleFloatUnbound | custom_components/solar_manager/plugins/Megarevo.py:593-619 | as written, a float, record or other value that is neither text nor an int sent to a schedule register raises UnboundLocalError; the device's corrected `handle_cmd` sends and stores nothing |
| Megarevo.ScheduleCommandAgrees | custom_components/solar_manager/plugins/Megarevo.py:593-619 | the corrected handler agrees with the code as written on every text and int value |
| Megarevo.BaseCommandSends | custom_components/solar_manager/plugins/Megarevo.py:546-591 | in-range bytes send `(high << 8) \| low`, which splits back into the pair, and store both names and the raw cache |
| Megarevo.BaseCommandEchoSkipped | custom_components/solar_manager/plugins/Megarevo.py:410-413 | the device's echo of a date-time command is recognised by the raw cache and skipped |
| Megarevo.BaseCommandRejects | custom_components/solar_manager/plugins/Megarevo.py:551-578 | a byte out of range, or a value that is not a {"high", "low"} record, sends nothing and changes nothing |
| Megarevo.PlainCommandStores | custom_components/solar_manager/plugins/Megarevo.py:515-544 | an int command outside the time registers is sent as given; it is stored under the register's name exactly when that entity is registered, and otherwise nothing changes |
| PZem.PZemV04.constructor | custom_components/solar_manager/plugins/PZemV04.py:26-36 | topic `sn/control/cmd`, empty name map, seen-set and store |
| PZem.PZemV04.SendConfig | custom_components/solar_manager/plugins/PZemV04.py:38-49 | the segments unchanged, to `sn/config` |
| PZem.PZemV04.UnpackDeviceInfo | custom_components/solar_manager/plugins/PZemV04.py:59-127 | the name map of non-blank names first, then the base groups extended register by register |
| PZem.PZemV04.HandleNotify | custom_components/solar_manager/plugins/PZemV04.py:129-164 | the store and seen-set become those of `GenericAll`, the refreshed entities are the changed registered ones, and the timer restarts |
| PZem.PZemV04.HandleCmd | custom_components/solar_manager/plugins/PZemV04.py:166-191 | a failed or unsupported conversion sends nothing and changes nothing; otherwise the frame is published and the value stored under the register's name only for a registered entity, raising AttributeError when that entity was unregistered to None |
| PZem.EntrySpec | custom_components/solar_manager/plugins/PZemV04.py:73-125 | unnamed registers contribute nothing; sensors (the default) and numbers always contribute; numbers carry register, bounds and step |
| PZem.CmdOutcomeSpec | custom_components/solar_manager/plugins/PZemV04.py:170-182 | a string is sent verbatim; an int is packed with the register's write command or 6; a float raises only for a zero scale; other types send nothing |
| PZem.NotifyIdle | custom_components/solar_manager/plugins/PZemV04.py:136-148 | a frame the store already holds refreshes no entity and leaves the store as it is |
| Ddsu666.WithSlave | custom_components/solar_manager/plugins/DDSU666.py:41-43 | one rewritten segment per segment |
| Ddsu666.ChintDdsu666.constructor | custom_components/solar_manager/plugins/DDSU666.py:26-34 | the given slave id, empty name map and store |
| Ddsu666.ChintDdsu666.SendConfig | custom_components/solar_manager/plugins/DDSU666.py:36-49 | the rewritten segments, to the device's config topic |
| Ddsu666.ChintDdsu666.UnpackDeviceInfo | custom_components/solar_manager/plugins/DDSU666.py:57-104 | the collected entries; the name map of truthy names on success, and up to the raising register otherwise |
| Ddsu666.ChintDdsu666.HandleNotify | custom_components/solar_manager/plugins/DDSU666.py:106-124 | the generic rule with unknown addresses ignored silently, then the timer restart |
| Ddsu666.ChintDdsu666.HandleCmd | custom_components/solar_manager/plugins/DDSU666.py:126-144 | a number is packed and published; nothing else is sent, and the store is never touched |
| Ddsu666.WithSlaveSpec | custom_components/solar_manager/plugins/DDSU666.py:41-43 | every rewritten segment carries the device's slave_id, overriding any given, and keeps every other key and value |
| Ddsu666.EntrySpec | custom_components/solar_manager/plugins/DDSU666.py:63-102 | registers without a truthy name contribute nothing; buttons carry register, write command (6 by default) and press payload (1 by default) |
| JkBms.JkBmsDevice.constructor | custom_components/solar_manager/plugins/JkBMS.py:26-35 | empty name map and store; the slave id is the constant 15 |
| JkBms.JkBmsDevice.SendConfig | custom_components/solar_manager/plugins/JkBMS.py:37-45 | the segments unchanged, to the device's config topic |
| JkBms.JkBmsDevice.UnpackDeviceInfo | custom_components/solar_manager/plugins/JkBMS.py:51-107 | the collected entries; the name map of truthy names on success, and up to the raising register otherwise |
| JkBms.JkBmsDevice.HandleNotify | custom_components/solar_manager/plugins/JkBMS.py:109-127 | the generic rule with unknown addresses ignored silently, then the timer restart |
| JkBms.JkBmsDevice.HandleCmd | custom_components/solar_manager/plugins/JkBMS.py:129-138 | a number is packed for slave 15 and published; nothing else is sent, and the store is never touched |
| JkBms.EntrySpec | custom_components/solar_manager/plugins/JkBMS.py:56-105 | numbers default to -500000000..500000000 with step 1; switches default to write command 10 |
| JkBms.WriteDefaults | custom_components/solar_manager/plugins/JkBMS.py:131-138 | a numeric write goes to slave 15 with write command 10 unless the register names another; other values send nothing |

## Left out

- MQTT transport and JSON text: publishing appends a message to the device's outbox, and subscribing adds a topic to a set. `json.dumps` payloads are kept as structured values.
- Logging, and `schedule_update_ha_state`: entity refreshes are returned as the set of refreshed names.
- Home Assistant entities: only the number bounds the rated-voltage gate rewrites are kept. Display attributes of the entity descriptions (icon, unit, precision, offset, device and state class, "addressing") are not modelled.
- Timers: `async_track_time_interval` becomes a fresh handle number, and cancelling adds it to a set of cancelled handles. Timers never fire on their own; the clear actions are the methods `ClearNotify` and `ClearDiagnostics`.
- Clock: `dt_util.now()` is a `DateTime` parameter of `SendNetworkTime` and `SendConfig`.
- Protocol loading: `load_protocol` and `aiofiles` are left out, and the descriptor is a constructor argument. `AsyncInit` therefore covers only the callback registrations and the two timers.
- `async_setup` of MakeSkyBlue, Megarevo and PZEM calls a base method that `BaseDevice` does not define, so it is not modelled.
- Concurrency: the handlers are `async`. Each handler is modelled as running to completion without interleaving.
- `handle_diagnostics` and `handle_online`: the JSON decoding and its error logging are left out. `UpdateDiagnostics` takes the decoded object, and `handle_online` is `SendConfig`.
- The plugins' frame decoding and packing use a helper variant that is not in the repository: integer keys and a four-argument `pack_data`. The plugins therefore work on decoded `(register, value)` pairs and a symbolic `Packed` frame, and are not composed with `TldCodec.ParseTld`.
- The broad `except` in every `send_config`: nothing in the modelled bodies raises, so it is not modelled.
- Floating point: a float command value is modelled as an integer (`CFloat`), and `int(value / scale)` as division truncated toward zero. `raw * scale` in the rated-voltage lookup uses an integer scale. The `voltage_ranges` bounds are tenths of a volt.
- The older helper's `struct.error` branch (protocol_helper/modbus_protocol_helper.py:80-82) cannot happen, because every slice it unpacks has the exact width. It is not modelled.
- NumText.ParseDecimal: accepts only plain digit strings. Python's `int()` also accepts surrounding whitespace, a sign and underscores; descriptor keys and stored times with those are outside the model.
- NumText.ParseHex: the same restriction for `int(k, 16)`, which also accepts a "0X" prefix or none.
- Descriptor names that are JSON values other than strings (rejected by `isinstance` in most plugins, truthy in DDSU666 and JK BMS) are modelled as absent.
- Megarevo.MegarevoDevice.HandleCmd: uses the corrected schedule handler `ScheduleCommand`. A schedule-register command whose value is neither text nor an int is dropped, with nothing sent or stored. The code as written raises UnboundLocalError there instead (custom_components/solar_manager/plugins/Megarevo.py:616; see Findings and `Megarevo.ScheduleFloatUnbound`).
- TldCodec.ReadData: the lazy protocol load before returning None is not modelled.
- PluginCommon.NumericWrite: a float scale other than an integer is not modelled.
- Megarevo.MegarevoDevice.UnpackDeviceInfo: the initial date-time and schedule names are dropped by the rebuild, as in the source. The time registers never use the name map, so this changes no stored value.

## Findings

| source | as written | input that shows it | evidently intended | confidence | as-written member | corrected member |
|---|---|---|---|---|---|---|
| custom_components/solar_manager/protocol_helper/modbus_protocol_helper.py:102 | the CRC-16/MODBUS of the six request bytes is appended with `struct.pack(">H")`, high byte first (the older helper does the same at protocol_helper/modbus_protocol_helper.py:100) | slave 1, write command 6, address 0, value 1: the CRC is 0x0A48 and the frame ends 0A 48, which fails a receiver's CRC check | the CRC field low byte first (48 0A), as section 6.2.2 of Modbus over Serial Line V1.02 requires | medium, not executed (an MQTT bridge in between could swap the bytes back) | TldCodec.AsWrittenFailsCheck | TldCodec.PackUnpackRoundTrip |
| custom_components/solar_manager/plugins/Megarevo.py:593-619 | `_handle_time_schedule_cmd` binds `data` only in its str and int branches, then reads it | command 0x303504 with the float value 12.5: `data` is unbound and UnboundLocalError escapes `handle_cmd` | any other value type is dropped with nothing sent, as in the other handlers | high, not executed | Megarevo.ScheduleFloatUnbound | Megarevo.ScheduleCommandAgrees |
