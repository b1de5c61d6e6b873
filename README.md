# ESPHome native-API compatibility layer, modelled in Dafny

An ESPHome device talks to a client over the native API. The client and the
device agree on a protocol version, an `APIVersion` made of a `major` and a
`minor` byte. Older firmware reported several capabilities through fields
that newer firmware replaced: a legacy version counter instead of feature
flags, four booleans instead of a list of colour modes, an "away" flag
instead of presets, and a two-valued open/closed state instead of a
position. The compatibility functions of `src/model/services.rs` compare
the agreed version with a fixed threshold, using a strict `<`. Below the
threshold they rebuild the modern value from the legacy fields. Otherwise
they return the modern field as it is.

The thresholds are:
- 1.1 for whether a cover is closed;
- 1.5 for climate presets;
- 1.6 for light colour modes;
- 1.9 for Bluetooth-proxy features;
- 1.10 for voice-assistant features.

The same file also decodes Bluetooth LE advertisement reports. Service UUIDs
are made canonical by `uuid_convert`. Manufacturer data and service data
arrive as lists of items. The first item of a list decides whether the whole
list carries raw bytes or legacy 32-bit words, which are expanded to
little-endian bytes. The items are inserted into maps in order, so a later
item with the same key replaces an earlier one.

The modules are:

| module | file | content |
|---|---|---|
| `Types` | `types.dfy` | fixed-width integers as subset types; `Option` and `Result` |
| `ApiVersion` | `api_version.dfy` | the version, its derived order, and the thresholds |
| `Flags` | `flags.dfy` | one-byte flag sets (`bv8`) and the feature and capability enumerations with their bits |
| `DeviceInfoCompat` | `device_info.dfy` | Bluetooth-proxy and voice-assistant feature flags |
| `CoverCompat` | `cover.dfy` | whether a cover is closed |
| `LightCompat` | `light.dfy` | colour modes, their byte values, and the legacy capability table |
| `ClimateCompat` | `climate.dfy` | supported presets and the active preset |
| `Uuid` | `uuid.dfy` | canonical UUID text |
| `Decimal` | `decimal.dfy` | parsing a company identifier as an unsigned 16-bit decimal |
| `LeBytes` | `le_bytes.dfy` | little-endian expansion of 32-bit words |
| `KeyedMap` | `keyed_map.dfy` | a map filled by inserting pairs in order |
| `Advertisement` | `advertisement.dfy` | decoding an advertisement report |

The form of the model follows the source:
- The two feature-flag functions build a mutable `flags` by successive `|=`. They are methods with the same sequence of updates, proved equal to table functions.
- The map-filling loops of `from_pb` are methods with `while` loops. They are proved equal to a left fold (`KeyedMap.InsertAll`) over the items.
- The list-extending loop over the service UUIDs is a method with a `while` loop. It is proved to keep the length and order, with element i the `uuid_convert` of input i.
- The expression-level functions (cover, climate, light, version order, `uuid_convert`) are Dafny functions with lemmas.
- A call to `unwrap` that would abort, and a UUID slice that would abort, become an explicit `DecodeError`, returned in the order the source would reach them:
  1. manufacturer data;
  2. then service data;
  3. then service UUIDs.

Two consequences of the code are worth stating:
- `uuid_convert` always drops the first two characters of a string shorter than 8 characters. The intended input is a prefixed alias: `0x180D` becomes `0000180d-0000-1000-8000-00805f9b34fb`. An unprefixed `180d` becomes `00000d-0000-1000-8000-00805f9b34fb` (`Uuid.UnprefixedShortUuidExample`).
- A legacy word expands to its four little-endian bytes: `[0x0102]` becomes `[0x02, 0x01, 0x00, 0x00]` (`Advertisement.LegacyWordsExample`).

## Model

| member | source | states |
|---|---|---|
| `ApiVersion.Compare` | src/model/services.rs:7-11 | the derived order: Equal exactly for equal versions, Less/Greater exactly when the majors differ that way or the majors tie and the minors do |
| `ApiVersion.Before` | src/model/services.rs:7-11 | `a < b` holds exactly when the numeric rank `major*256+minor` of `a` is below that of `b` |
| `ApiVersion.CompareFlips` | src/model/services.rs:7-11 | swapping the operands swaps Less and Greater and keeps Equal |
| `ApiVersion.BeforeIsStrictTotalOrder` | src/model/services.rs:7-11 | `<` is irreflexive, asymmetric, transitive and total on versions |
| `ApiVersion.BelowThreshold` | src/model/services.rs:88 | a version is below a threshold iff its major is smaller, or equal with a smaller minor; a larger major never is |
| `Flags.Union` | src/model/services.rs:89-105 | `|=` keeps every bit of either operand and adds no other |
| `Flags.BluetoothProxyFeature.Mask` | src/model/services.rs:19-26 | every proxy feature is a single bit |
| `Flags.BluetoothProxyFeatureMasksDisjoint` | src/model/services.rs:19-26 | distinct proxy features have distinct, disjoint bits |
| `Flags.VoiceAssistantFeature.Mask` | src/model/services.rs:32-38 | every voice-assistant feature is a single bit |
| `Flags.VoiceAssistantFeatureMasksDisjoint` | src/model/services.rs:32-38 | distinct voice-assistant features have distinct, disjoint bits |
| `Flags.LightColorCapability.Mask` | src/model/services.rs:262-269 | every colour capability is a single bit |
| `Flags.LightColorCapabilityMasksDisjoint` | src/model/services.rs:262-269 | distinct colour capabilities have distinct, disjoint bits |
| `DeviceInfoCompat.LegacyBluetoothProxyFeatures` | src/model/services.rs:89-105 | bit i is set exactly when i < 5 and the legacy proxy version is above i |
| `DeviceInfoCompat.LegacyVoiceAssistantFeatures` | src/model/services.rs:112-118 | bit i is set exactly when i < 2 and the legacy voice-assistant version is above i |
| `DeviceInfoCompat.BluetoothProxyFeatureFlagsCompat` | src/model/services.rs:87-108 | below 1.9 the five conditional `|=` steps give the legacy feature set of the counter; otherwise the modern flags, unchanged |
| `DeviceInfoCompat.VoiceAssistantFeatureFlagsCompat` | src/model/services.rs:110-122 | below 1.10 the two conditional `|=` steps give the legacy feature set of the counter; otherwise the modern flags, unchanged |
| `DeviceInfoCompat.LegacyBluetoothProxyMonotone` | src/model/services.rs:89-105 | a higher legacy proxy version gives a superset of features |
| `DeviceInfoCompat.LegacyBluetoothProxyStep` | src/model/services.rs:89-105 | each version step below 5 adds exactly bit `version`, which was not set before |
| `DeviceInfoCompat.LegacyBluetoothProxyBounds` | src/model/services.rs:19-26 | version 0 gives no feature, 5 and above all of PassiveScan to CacheClearing, and RawAdvertisements is never set |
| `DeviceInfoCompat.LegacyVoiceAssistantValues` | src/model/services.rs:112-118 | version 0 gives nothing, 1 gives VoiceAssistant, 2 and above VoiceAssistant and Speaker |
| `DeviceInfoCompat.LegacyVoiceAssistantMonotone` | src/model/services.rs:112-118 | a higher legacy voice-assistant version gives a superset of features |
| `CoverCompat.IsClosed` | src/model/services.rs:206-213 | below 1.1 with a legacy state present, closed iff that state is Closed; in every other case closed iff the position is zero |
| `CoverCompat.LegacyStateDecides` | src/model/services.rs:207-211 | with a legacy state below 1.1, position, tilt and operation do not affect the answer |
| `CoverCompat.PositionDecides` | src/model/services.rs:212 | at or above 1.1, or with no legacy state, only the position affects the answer |
| `CoverCompat.IsClosedExamples` | src/model/services.rs:206-213 | a legacy Closed at position 0.5 is closed at 1.0; the same legacy state is ignored at 1.1 |
| `LightCompat.ColorModeToU8` | src/model/services.rs:302-306 | the byte of a colour mode is zero only for Unknown, includes the Brightness bit for every mode beyond OnOff, and uses no bit above the six capabilities |
| `LightCompat.ColorModeToU8Injective` | src/model/services.rs:272-283 | distinct colour modes have distinct byte values |
| `LightCompat.LegacyColorCapabilities` | src/model/services.rs:332-362 | always includes OnOff; a listed boolean combination gives OnOff plus one bit per true boolean, every other combination only OnOff |
| `LightCompat.LegacyColorCapabilitiesTable` | src/model/services.rs:332-362 | the table values 1, 3, 11, 35, 39, 43, 47 for the listed keys, and 1 for unlisted ones |
| `LightCompat.SupportedColorModesCompat` | src/model/services.rs:323-372 | below 1.6 a one-element list holding the table value, with OnOff set; otherwise the same length as the mode list, element i the byte of mode i |
| `LightCompat.ColorModesDependOnOneSource` | src/model/services.rs:323-372 | below 1.6 only the four legacy booleans matter; at or above it only the mode list |
| `LightCompat.ModernColorModesDetermineList` | src/model/services.rs:366-371 | at or above 1.6 equal outputs come from equal mode lists |
| `ClimateCompat.SupportedPresetsCompat` | src/model/services.rs:626-634 | below 1.5 `[Home, Away]` if away is supported, else empty; otherwise the modern list unchanged |
| `ClimateCompat.PresetCompat` | src/model/services.rs:656-664 | below 1.5 `Some(Away)` if away is active, else `Some(Home)`; otherwise the modern preset unchanged |
| `ClimateCompat.PresetsDependOnOneSource` | src/model/services.rs:626-634 | below 1.5 only the away flag matters; at or above it only the preset list |
| `ClimateCompat.LegacyPresetIsSupported` | src/model/services.rs:656-664 | below 1.5 a preset is always active, and it is among the supported presets when away is supported |
| `Uuid.UuidConvert` | src/model/services.rs:993-999 | a short input grows by 30 characters, any other keeps its length; an input of 8 or more is only lowercased |
| `Uuid.LowerProperties` | src/model/services.rs:994 | lowercasing keeps the length, leaves no upper-case letter, and is the identity on lowercase text |
| `Uuid.UuidConvertLowercase` | src/model/services.rs:993-999 | the result contains no upper-case letter |
| `Uuid.UuidConvertShortShape` | src/model/services.rs:995-997 | a short input of length n gives `"0000"`, then its lowercased characters from index 2, then the base suffix; length n + 30 |
| `Uuid.UuidConvertIdempotent` | src/model/services.rs:993-999 | converting twice is converting once |
| `Uuid.ShortAliasExpands` | src/model/services.rs:995-997 | a six-character alias gives a 36-character UUID with hyphens at 8, 13, 18 and 23 and the four alias digits at 4 to 7 |
| `Uuid.PrefixedShortUuidExample` | src/model/services.rs:995-997 | `0x180D` becomes `0000180d` followed by the base suffix |
| `Uuid.UnprefixedShortUuidExample` | src/model/services.rs:995-997 | `180d` becomes `00000d` followed by the base suffix |
| `Uuid.FullUuidExample` | src/model/services.rs:993-999 | a lowercase 36-character UUID is returned unchanged |
| `Decimal.ParseU16` | src/model/services.rs:1021 | succeeds exactly on an optional `+` followed by at least one digit and nothing else, of value at most 65535, and yields that value |
| `Decimal.ParseFormatRoundTrip` | src/model/services.rs:1021 | the decimal text of every 16-bit value parses back to it, with or without `+` |
| `Decimal.LeadingZero` | src/model/services.rs:1021 | a leading zero does not change the value |
| `Decimal.ParseU16Examples` | src/model/services.rs:1021 | `76` parses; empty text, a lone `+`, `-1`, `65536` and `0x4C` do not |
| `LeBytes.WordToLeBytes` | src/model/services.rs:1031 | four bytes whose little-endian value is the word |
| `LeBytes.WordRoundTrip` | src/model/services.rs:1031 | the four bytes read back as the word |
| `LeBytes.Flatten` | src/model/services.rs:1028-1032 | the expansion has four bytes per word |
| `LeBytes.FlattenAt` | src/model/services.rs:1028-1032 | bytes 4i to 4i+3 of the expansion are the bytes of word i |
| `LeBytes.FlattenRoundTrip` | src/model/services.rs:1028-1032 | regrouping the expansion by four recovers the words |
| `LeBytes.FlattenExample` | src/model/services.rs:1028-1032 | `[0x0102]` expands to `[2, 1, 0, 0]` |
| `KeyedMap.InsertAll` | src/model/services.rs:1020-1022 | every inserted key is in the map, and the map has no more keys than pairs were inserted |
| `KeyedMap.InsertAllAppend` | src/model/services.rs:1021 | inserting one more pair updates the map at that key only |
| `KeyedMap.InsertAllKeys` | src/model/services.rs:1020-1022 | the keys of the map are exactly the keys of the pairs |
| `KeyedMap.InsertAllLastWins` | src/model/services.rs:1020-1022 | the last pair with a key decides that key's value |
| `KeyedMap.InsertAllValue` | src/model/services.rs:1020-1022 | every value is that of the last pair with its key |
| `Advertisement.ManufacturerData` | src/model/services.rs:1017-1036 | every item's company identifier is a key, and there are no more keys than items |
| `Advertisement.ServiceData` | src/model/services.rs:1038-1057 | every item's canonical UUID is a key, and there are no more keys than items |
| `Advertisement.EmptyListsGiveEmptyMaps` | src/model/services.rs:1017-1018 | empty item lists give empty maps |
| `Advertisement.ManufacturerDataKeys` | src/model/services.rs:1017-1036 | the manufacturer keys are exactly the parsed company identifiers of the items |
| `Advertisement.ManufacturerDataLastWins` | src/model/services.rs:1017-1036 | the last item with an identifier decides its payload, decoded as the first item dictates |
| `Advertisement.ServiceDataKeys` | src/model/services.rs:1038-1057 | the service-data keys are exactly the canonical UUIDs of the items |
| `Advertisement.ServiceDataLastWins` | src/model/services.rs:1038-1057 | the last item with a canonical UUID decides its payload, decoded as the first item dictates |
| `Advertisement.LegacyManufacturerPayload` | src/model/services.rs:1023-1035 | in a legacy list each value is 4 bytes per legacy word of an item with that key and regroups to those words |
| `Advertisement.RawManufacturerPayload` | src/model/services.rs:1019-1022 | in a raw list each value is the raw bytes of an item with that key |
| `Advertisement.RawBytesExample` | src/model/services.rs:1019-1022 | `[("76", bytes [1,2,3])]` gives `{76: [1,2,3]}` |
| `Advertisement.LegacyWordsExample` | src/model/services.rs:1023-1035 | `[("76", words [0x0102])]` gives `{76: [2,1,0,0]}` |
| `Advertisement.FirstItemDecidesExample` | src/model/services.rs:1039-1057 | when the first item is legacy, a later item's raw bytes are ignored and its empty legacy list gives an empty value |
| `Advertisement.DecodeManufacturerData` | src/model/services.rs:1017-1036 | fails exactly when some identifier does not parse; otherwise the in-order insertion map |
| `Advertisement.DecodeServiceData` | src/model/services.rs:1038-1057 | fails exactly when some UUID is too short to slice; otherwise the in-order insertion map |
| `Advertisement.ConvertServiceUuids` | src/model/services.rs:1059-1066 | fails exactly when some UUID is too short; otherwise the same length and order, element i canonicalised |
| `Advertisement.FromPb` | src/model/services.rs:1012-1077 | errors in the order manufacturer data, service data, service UUIDs; success exactly when all three are valid, with the scalar fields copied and both maps and the UUID list as specified |

## Left out

- `crates/esphomeapi-manager-node/index.d.ts`: generated type declarations for the asynchronous network client. It has no logic.
- The plain data containers have no behaviour and are not modelled: the string fields of `DeviceInfo`, every `*Info`/`*State` struct without a compatibility method, the command enums, and the GATT and voice-assistant message structs. The modelled datatypes keep only the fields the compatibility functions read, except `CoverState`. It also keeps `tilt` and `current_operation`, so that `CoverCompat.LegacyStateDecides` can state that they do not affect the answer.
- The `From<proto::api::…>` conversions: one-to-one matches over generated protocol enums, which are not part of this model. `ColorMode` and `ClimatePreset` are plain datatypes.
- `CoverCompat.IsClosed`: `position` is a `real` compared exactly with zero. NaN and negative zero of IEEE 754 single precision are not modelled.
- `Uuid.UuidConvert`: lowercasing is ASCII only. Lengths and slices count characters, while the source counts UTF-8 bytes, which agree only on ASCII text. A slice inside a multi-byte character, which would abort, is not modelled.
- `Uuid.UuidConvert`: an input shorter than 2 characters aborts in the source. The function requires at least 2. The decoder checks this before calling it and returns `UuidTooShort`.
- `Advertisement.FromPb`: an abort is modelled as an error result, not as a panic that unwinds.
- `Advertisement.FromPb`: the `name` string is copied as it is. The source carries a note that a UTF-8 conversion might be needed, and no conversion is modelled.
- `HashMap` hashing and iteration order: the maps are Dafny `map`s, which have no order.
- `LeBytes.Flatten`: each legacy element is fixed at 32 bits (4 bytes), the width of `repeated uint32` in the ESPHome protocol definition. The generated structure is not part of this model.
