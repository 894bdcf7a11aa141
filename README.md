# DeviceIdentify identifier logic, modelled in Dafny

This project models the identifier-resolution core of the Android library
DeviceIdentify: the `DeviceManagement` object that resolves a device's
serial number, IMEI/MEID, SIM data, Android ID, a build snapshot, a
pseudo-identifier and its MD5-based device identifier, together with the
permission helpers (`PermissionUtils`), the API-level gates
(`BuildVersionExt`) and the collection helpers (`CollectionExt`) it relies on.

The Android platform is not code of this repository, so it is an input: the
record `AndroidPlatform.Platform` carries the SDK level, the set of granted
permissions, the telephony-feature flag, the `Build` attributes, every
telephony getter, the secure `ANDROID_ID` setting and the system-property
store. Each string-valued telephony getter, `Build.getSerial()` and each
system-property lookup is a `Lookup`: a value, `null`, or an exception
(`Outcome<Option<string>>`). `Settings.Secure.getString` and
`Build.getRadioVersion()` are `Option<string>`: a value or `null`. The
integer telephony getters (SIM state, carrier ids, multi-SIM support) are
plain `int`s. MD5 and `UUID.nameUUIDFromBytes` are
passed in as functions.

Modules, one per source file plus shared helpers:

- `Wrappers` — `Option` (a Kotlin nullable) and `Outcome` (a call that may throw).
- `Text` — `isBlank`, `joinToString`, decimal and hex rendering of integers, and a splitter that inverts the join.
- `Encoding` — Kotlin's signed `Byte`, UTF-8 encoding, the UTF-16 `String.length`, and the lower-case hex rendering of a digest with its decoder.
- `BuildVersionExt` — the `isAtLeastApiNN` gates.
- `PermissionUtils` — single, any-of and all-of permission checks, and `checkPermission`.
- `CollectionExt` — `arrayMapOf`, `toImmutableMap`, `isNotNullOrEmpty`.
- `AndroidPlatform` — the platform input record.
- `DeviceManagement` — the identifier logic itself, with the process-wide object as a class whose `context` field is bound once.

Failures the code does not turn into an empty result, and other details of
the code that the model keeps:

- The system-property serial chain has one `try` around all four lookups, so a lookup that throws ends the chain with `null`; it does not go on to the next key.
- `serialNumberByBuild` has no `try`, so an exception from `Build.getSerial()` propagates out of `serialNumber` (the model returns `Raised`).
- `androidId` has no `try`: an exception from `deviceId`, or a `null` reaching its non-null `String` return, propagates (`Raised`). `getAllBuildInfo` catches it and returns the empty map.
- `allSimInfo` has no `try`, so any telephony getter that throws propagates.
- The accessors `imei`, `meid`, `phoneNumber`, `simSerialNumber` and `subscriberId` are inside a `try`. A `null` from the platform fails Kotlin's non-null check on their `String` return, and they then return `""`.
- `getDeviceUniqueId` digests the first `pseudoId.length` bytes of the UTF-8 encoding, and `length` counts UTF-16 units. The digest therefore covers the whole encoding exactly when the pseudo-identifier is ASCII (`DigestInputCoversEncodingIffAscii`). `getUniquePseudoID` uses the whole encoding.

## Model

| member | source | states |
|---|---|---|
| DeviceManagement.CanReadPhoneStateIff | app/src/main/java/com/straucorp/deviceidentify/utils/DeviceManagement.kt:323-329 | the any-of phone-state gate holds iff READ_PHONE_STATE or READ_PRIVILEGED_PHONE_STATE is granted |
| DeviceManagement.DeviceManagementObject.constructor | app/src/main/java/com/straucorp/deviceidentify/utils/DeviceManagement.kt:44-46 | a fresh object has no platform bound (the `lateinit` fields are uninitialised) |
| DeviceManagement.DeviceManagementObject.Invoke | app/src/main/java/com/straucorp/deviceidentify/utils/DeviceManagement.kt:51-60 | the first call binds the given platform; later calls leave the existing binding unchanged |
| DeviceManagement.DeviceManagementObject.Build | app/src/main/java/com/straucorp/deviceidentify/utils/DeviceManagement.kt:62-68 | after the call the given platform is the bound one |
| DeviceManagement.DeviceManagementObject.Identify | app/src/main/java/com/straucorp/deviceidentify/utils/DeviceManagement.kt:78-81 | on a bound object, `identify` is the device unique id of the bound platform |
| DeviceManagement.ValidateValue | app/src/main/java/com/straucorp/deviceidentify/utils/DeviceManagement.kt:301-307 | a value is valid iff it is non-null, non-empty, not "unknown" and differs from the excluded value when one is given |
| DeviceManagement.ValidateValueCases | app/src/main/java/com/straucorp/deviceidentify/utils/DeviceManagement.kt:301-307 | a whitespace-only value passes; "unknown", null and the excluded value itself never pass |
| DeviceManagement.FirstValid | app/src/main/java/com/straucorp/deviceidentify/utils/DeviceManagement.kt:331-361 | a non-null result of the lookup chain is always a valid value |
| DeviceManagement.FirstValidDecidedAt | app/src/main/java/com/straucorp/deviceidentify/utils/DeviceManagement.kt:331-361 | once all earlier keys gave invalid values, a valid value at key i is the result and an exception at key i makes the result null |
| DeviceManagement.FirstValidExhausted | app/src/main/java/com/straucorp/deviceidentify/utils/DeviceManagement.kt:350-361 | when every key gives an invalid value the chain returns null |
| DeviceManagement.FirstValidSource | app/src/main/java/com/straucorp/deviceidentify/utils/DeviceManagement.kt:331-356 | a non-null result is the value looked up at some key, and every earlier key was looked up without exception and rejected |
| DeviceManagement.SerialNumberBySysProp | app/src/main/java/com/straucorp/deviceidentify/utils/DeviceManagement.kt:320-362 | the loop returns the first valid property value in key order, null without the permission, after an exception or when all fail; no key is looked up without the permission; the keys consulted are a prefix of the key list ending at the key whose value is returned |
| DeviceManagement.SerialNumberByBuild | app/src/main/java/com/straucorp/deviceidentify/utils/DeviceManagement.kt:369-390 | null without the permission; a non-null result is valid; it throws iff the permission is held, the SDK is at least 26 and `getSerial()` throws |
| DeviceManagement.SerialNumberByBuildSource | app/src/main/java/com/straucorp/deviceidentify/utils/DeviceManagement.kt:380-390 | with the permission, SDK 26 and later read `getSerial()` and earlier levels read `SERIAL`, each kept only when valid |
| DeviceManagement.SerialNumber | app/src/main/java/com/straucorp/deviceidentify/utils/DeviceManagement.kt:122-130 | the serial number is "" or a valid value, and the getter throws exactly when the build path throws |
| DeviceManagement.SerialNumberOrder | app/src/main/java/com/straucorp/deviceidentify/utils/DeviceManagement.kt:122-130 | a valid build serial wins; a null build serial falls back to the system properties (or ""); without permission the result is "" |
| DeviceManagement.IsSimAvailable | app/src/main/java/com/straucorp/deviceidentify/utils/DeviceManagement.kt:243-258 | the SIM is available iff READ_PHONE_STATE is granted and the SIM state is SIM_STATE_READY |
| DeviceManagement.ValueOrEmpty | app/src/main/java/com/straucorp/deviceidentify/utils/DeviceManagement.kt:143-153 | inside the accessors' `try`, a non-null value passes through and a null or an exception gives "" |
| DeviceManagement.Imei | app/src/main/java/com/straucorp/deviceidentify/utils/DeviceManagement.kt:139-154 | a non-empty IMEI needs the SIM and telephony guard and comes from `imei` (SDK 26+) or `deviceId` (earlier); under the guard a non-null value is returned as is |
| DeviceManagement.Meid | app/src/main/java/com/straucorp/deviceidentify/utils/DeviceManagement.kt:163-177 | a non-empty MEID needs the guard and SDK 26+ and is the `meid` getter's value; below SDK 26 it is "" |
| DeviceManagement.PhoneNumber | app/src/main/java/com/straucorp/deviceidentify/utils/DeviceManagement.kt:183-193 | a non-empty phone number needs the guard and is `line1Number` |
| DeviceManagement.SimSerialNumber | app/src/main/java/com/straucorp/deviceidentify/utils/DeviceManagement.kt:199-209 | a non-empty SIM serial needs the guard and is `simSerialNumber` |
| DeviceManagement.SubscriberId | app/src/main/java/com/straucorp/deviceidentify/utils/DeviceManagement.kt:215-225 | a non-empty subscriber id needs the guard and is `subscriberId` |
| DeviceManagement.TelephonyAccessorsPassValues | app/src/main/java/com/straucorp/deviceidentify/utils/DeviceManagement.kt:163-225 | under the guard each accessor returns the platform's non-null value unchanged |
| DeviceManagement.AndroidId | app/src/main/java/com/straucorp/deviceidentify/utils/DeviceManagement.kt:105-117 | a valid secure setting is returned; otherwise with READ_PHONE_STATE the telephony `deviceId` (throwing on null or exception), and without it the invalid setting itself (throwing on null) |
| DeviceManagement.AllSimInfo | app/src/main/java/com/straucorp/deviceidentify/utils/DeviceManagement.kt:260-286 | null unless SIM and telephony are available; otherwise the keys are the six base keys, plus the carrier keys from API 28 and the specific-carrier and multi-SIM keys from API 29; it throws iff a getter it calls throws; when nothing throws, the map is present exactly when the guard holds |
| DeviceManagement.WithoutBlank | app/src/main/java/com/straucorp/deviceidentify/utils/DeviceManagement.kt:446-449 | an entry is kept iff its value is neither null nor blank, and a kept entry keeps its value |
| DeviceManagement.RemoveBlankEntries | app/src/main/java/com/straucorp/deviceidentify/utils/DeviceManagement.kt:446-449 | the removal loop leaves exactly the entries whose values are neither null nor blank |
| DeviceManagement.BuildInfoPairsInSteps | app/src/main/java/com/straucorp/deviceidentify/utils/DeviceManagement.kt:415-444 | filling the 22 base entries and then putting the three ABI entries (from Lollipop on) gives the map of all entries |
| DeviceManagement.GetAllBuildInfo | app/src/main/java/com/straucorp/deviceidentify/utils/DeviceManagement.kt:413-458 | the method computes the prefixed, filtered, immutable build snapshot, or the empty map when `androidId` throws |
| DeviceManagement.BuildInfoNamesDistinct | app/src/main/java/com/straucorp/deviceidentify/utils/DeviceManagement.kt:415-443 | the entry names of the build snapshot are pairwise distinct, so no entry overwrites another |
| DeviceManagement.AllBuildInfoShape | app/src/main/java/com/straucorp/deviceidentify/utils/DeviceManagement.kt:413-458 | every key is the prefix followed by one of the entry names for the SDK level; no value is blank; an exception gives the empty map |
| DeviceManagement.AllBuildInfoEntry | app/src/main/java/com/straucorp/deviceidentify/utils/DeviceManagement.kt:415-451 | when `androidId` does not throw, each named entry is present iff its value is neither null nor blank, and then holds exactly that value |
| DeviceManagement.PseudoIdParts | app/src/main/java/com/straucorp/deviceidentify/utils/DeviceManagement.kt:88 | the pseudo-identifier is built from nine attributes |
| DeviceManagement.IntToStringHasNoBar | app/src/main/java/com/straucorp/deviceidentify/utils/DeviceManagement.kt:88 | the rendered build time never contains the separator bar character |
| DeviceManagement.PseudoId | app/src/main/java/com/straucorp/deviceidentify/utils/DeviceManagement.kt:86-88 | when no attribute contains the bar character, splitting the pseudo-identifier at it gives back the nine attributes in order, so the join loses nothing |
| DeviceManagement.PseudoIdDeterminesParts | app/src/main/java/com/straucorp/deviceidentify/utils/DeviceManagement.kt:86-88 | for attributes without the bar character, equal pseudo-identifiers mean equal attributes |
| DeviceManagement.DeviceUniqueId | app/src/main/java/com/straucorp/deviceidentify/utils/DeviceManagement.kt:474-502 | "" without the any-of permission; otherwise two lower-case hex digits per digest byte, and decoding them gives back the digest's unsigned bytes |
| DeviceManagement.GetDeviceUniqueId | app/src/main/java/com/straucorp/deviceidentify/utils/DeviceManagement.kt:474-497 | the hex-building loop computes the device unique id |
| DeviceManagement.DeviceUniqueIdShape | app/src/main/java/com/straucorp/deviceidentify/utils/DeviceManagement.kt:486-496 | with READ_PHONE_STATE or READ_PRIVILEGED_PHONE_STATE granted, a 16-byte MD5 digest renders as 32 lower-case hex digits |
| DeviceManagement.DeviceUniqueIdSeparatesDigests | app/src/main/java/com/straucorp/deviceidentify/utils/DeviceManagement.kt:486-496 | when both platforms hold READ_PHONE_STATE or READ_PRIVILEGED_PHONE_STATE, they get the same identifier iff their pseudo-identifier digests are equal |
| DeviceManagement.UniquePseudoId | app/src/main/java/com/straucorp/deviceidentify/utils/DeviceManagement.kt:465-471 | given that `UUID.toString()` is always 8-4-4-4-12 lower-case hex, the result is "" exactly when neither phone-state permission is granted, and otherwise a UUID string: the name-based UUID of the whole UTF-8 encoding of the pseudo-identifier |
| DeviceManagement.DigestInputCoversEncodingIffAscii | app/src/main/java/com/straucorp/deviceidentify/utils/DeviceManagement.kt:482-485 | the digested bytes are a prefix of the UTF-8 encoding, and all of it iff the pseudo-identifier is ASCII |
| DeviceManagement.NoPhonePermissionScenario | app/src/main/java/com/straucorp/deviceidentify/utils/DeviceManagement.kt:465-480 | without either phone-state permission, the unique pseudo id and the device unique id are "" (and so is the serial number) |
| DeviceManagement.BuildSerialScenario | app/src/main/java/com/straucorp/deviceidentify/utils/DeviceManagement.kt:122-130 | on API 26 with the permission, `getSerial()` returning "SN123" gives the serial number "SN123" |
| DeviceManagement.SystemPropertySerialScenario | app/src/main/java/com/straucorp/deviceidentify/utils/DeviceManagement.kt:122-130 | a build serial "unknown" falls back to system properties, where an empty `ril.serialnumber` gives way to `ro.serialno` |
| Text.JoinNine | app/src/main/java/com/straucorp/deviceidentify/utils/DeviceManagement.kt:88 | nine parts joined with a separator are the parts in order with the separator between each pair of neighbours |
| DeviceManagement.BuildTimeScenario | app/src/main/java/com/straucorp/deviceidentify/utils/DeviceManagement.kt:88 | the build time 123 renders as "123" |
| DeviceManagement.PseudoIdSpelledOut | app/src/main/java/com/straucorp/deviceidentify/utils/DeviceManagement.kt:86-88 | the pseudo-identifier is ID, board, brand, manufacturer, model, first ABI, hardware, host and decimal time, with the bar character between neighbours |
| DeviceManagement.PseudoIdScenario | app/src/main/java/com/straucorp/deviceidentify/utils/DeviceManagement.kt:86-88 | a concrete build yields its nine attributes joined by bars, with the time 123 in decimal |
| Encoding.Unsigned | app/src/main/java/com/straucorp/deviceidentify/utils/DeviceManagement.kt:490 | `0xFF and b.toInt()` is below 256 and equals the byte, or the byte plus 256 when negative |
| Encoding.Utf16Length | app/src/main/java/com/straucorp/deviceidentify/utils/DeviceManagement.kt:484 | `String.length` never exceeds the UTF-8 byte count and equals it iff the string is ASCII |
| Encoding.DigestInput | app/src/main/java/com/straucorp/deviceidentify/utils/DeviceManagement.kt:484 | the bytes given to `update` are a prefix of the UTF-8 encoding, all of it iff the string is ASCII |
| Encoding.HexOf | app/src/main/java/com/straucorp/deviceidentify/utils/DeviceManagement.kt:489-496 | the rendering has two characters per byte |
| Encoding.ByteHexDigits | app/src/main/java/com/straucorp/deviceidentify/utils/DeviceManagement.kt:490-495 | zero-padding plus `Integer.toHexString` renders a byte as its high and low nibble digits |
| Encoding.HexOfIsLowerHex | app/src/main/java/com/straucorp/deviceidentify/utils/DeviceManagement.kt:489-496 | the rendering contains only lower-case hex digits |
| Encoding.HexRoundTrip | app/src/main/java/com/straucorp/deviceidentify/utils/DeviceManagement.kt:489-496 | decoding the rendering gives back the unsigned bytes |
| Encoding.HexOfInjective | app/src/main/java/com/straucorp/deviceidentify/utils/DeviceManagement.kt:489-496 | distinct digests render as distinct strings |
| Text.SplitJoin | app/src/main/java/com/straucorp/deviceidentify/utils/DeviceManagement.kt:88 | for a non-empty list of parts, `joinToString` with a one-character separator no part contains is undone by splitting at it |
| Text.DigitChar | app/src/main/java/com/straucorp/deviceidentify/utils/DeviceManagement.kt:495 | every digit `Integer.toHexString` emits is a lower-case hex digit |
| PermissionUtils.HasPermission | app/src/main/java/com/straucorp/deviceidentify/utils/PermissionUtils.kt:47-49 | `checkSelfPermission` reports PERMISSION_GRANTED exactly for a granted permission |
| PermissionUtils.HasPermissionSome | app/src/main/java/com/straucorp/deviceidentify/utils/PermissionUtils.kt:29-36 | the scan returns true iff some listed permission is granted |
| PermissionUtils.HasPermissions | app/src/main/java/com/straucorp/deviceidentify/utils/PermissionUtils.kt:38-45 | the scan returns true iff every listed permission is granted |
| PermissionUtils.CheckPermission | app/src/main/java/com/straucorp/deviceidentify/utils/PermissionUtils.kt:51-61 | the granted action runs when the permission is granted, the denied action otherwise |
| PermissionUtils.EmptyPermissionLists | app/src/main/java/com/straucorp/deviceidentify/utils/PermissionUtils.kt:29-45 | an empty any-of check fails and an empty all-of check succeeds |
| PermissionUtils.AllGrantedImpliesAnyGranted | app/src/main/java/com/straucorp/deviceidentify/utils/PermissionUtils.kt:29-45 | on a non-empty list, all granted implies some granted |
| PermissionUtils.SinglePermissionLists | app/src/main/java/com/straucorp/deviceidentify/utils/PermissionUtils.kt:29-49 | on a one-element list both checks agree with the single-permission check |
| BuildVersionExt.IsAtLeastApi | app/src/main/java/com/straucorp/deviceidentify/extensions/BuildVersionExt.kt:18 | the gate holds exactly when the SDK level is at least the given version code |
| BuildVersionExt.IsAtLeastApi21 | app/src/main/java/com/straucorp/deviceidentify/extensions/BuildVersionExt.kt:19 | the Lollipop gate is `isAtLeastApi(21)` |
| BuildVersionExt.IsAtLeastApi23 | app/src/main/java/com/straucorp/deviceidentify/extensions/BuildVersionExt.kt:20 | the M gate is `isAtLeastApi(23)` |
| BuildVersionExt.IsAtLeastApi24 | app/src/main/java/com/straucorp/deviceidentify/extensions/BuildVersionExt.kt:21 | the N gate is `isAtLeastApi(24)` |
| BuildVersionExt.IsAtLeastApi26 | app/src/main/java/com/straucorp/deviceidentify/extensions/BuildVersionExt.kt:22 | the O gate is `isAtLeastApi(26)` |
| BuildVersionExt.IsAtLeastApi27 | app/src/main/java/com/straucorp/deviceidentify/extensions/BuildVersionExt.kt:23 | the O_MR1 gate is `isAtLeastApi(27)` |
| BuildVersionExt.IsAtLeastApi28 | app/src/main/java/com/straucorp/deviceidentify/extensions/BuildVersionExt.kt:24 | the P gate is `isAtLeastApi(28)` |
| BuildVersionExt.IsAtLeastApi29 | app/src/main/java/com/straucorp/deviceidentify/extensions/BuildVersionExt.kt:25 | the Q gate is `isAtLeastApi(29)` |
| BuildVersionExt.IsAtLeastApi30 | app/src/main/java/com/straucorp/deviceidentify/extensions/BuildVersionExt.kt:26 | the R gate is `isAtLeastApi(30)` |
| BuildVersionExt.IsAtLeastApi31 | app/src/main/java/com/straucorp/deviceidentify/extensions/BuildVersionExt.kt:27 | the S gate is `isAtLeastApi(31)` |
| BuildVersionExt.IsAtEqualOrMinusApi25 | app/src/main/java/com/straucorp/deviceidentify/extensions/BuildVersionExt.kt:29 | "at most N_MR1" is exactly the complement of "at least O" |
| BuildVersionExt.GatesMonotone | app/src/main/java/com/straucorp/deviceidentify/extensions/BuildVersionExt.kt:18 | passing a gate for a later release implies passing every gate for an earlier one |
| BuildVersionExt.NamedGatesMonotone | app/src/main/java/com/straucorp/deviceidentify/extensions/BuildVersionExt.kt:19-27 | each named gate implies the next lower named gate |
| CollectionExt.IsNotNullOrEmpty | app/src/main/java/com/straucorp/deviceidentify/extensions/CollectionExt.kt:12-14 | a collection or array is "not null or empty" iff it is non-null with at least one element |
| CollectionExt.MapIsNotNullOrEmpty | app/src/main/java/com/straucorp/deviceidentify/extensions/CollectionExt.kt:13 | a map is "not null or empty" iff it is non-null and has some key |
| CollectionExt.EmptyArrayMap | app/src/main/java/com/straucorp/deviceidentify/extensions/CollectionExt.kt:16 | `arrayMapOf()` has no entries |
| CollectionExt.ArrayMapOf | app/src/main/java/com/straucorp/deviceidentify/extensions/CollectionExt.kt:18-24 | the fill loop puts each pair in turn, a later pair overwriting an earlier one with the same key |
| CollectionExt.FromPairsKeys | app/src/main/java/com/straucorp/deviceidentify/extensions/CollectionExt.kt:18-24 | the keys of `arrayMapOf(pairs)` are exactly the keys among the pairs |
| CollectionExt.FromPairsLastOccurrence | app/src/main/java/com/straucorp/deviceidentify/extensions/CollectionExt.kt:18-24 | a key maps to the value of its last occurrence among the pairs |
| CollectionExt.FromPairsSize | app/src/main/java/com/straucorp/deviceidentify/extensions/CollectionExt.kt:18-24 | the map has one entry per distinct key, so never more entries than pairs |
| CollectionExt.ToImmutableMap | app/src/main/java/com/straucorp/deviceidentify/extensions/CollectionExt.kt:26-31 | the immutable copy has the same keys and values as the original |

## Left out

- The Android platform (`Build`, `TelephonyManager`, `Settings.Secure`, `PackageManager`, `ContextCompat.checkSelfPermission`) is an input record; its getters are not modelled, only what they return or throw.
- `SystemPropertiesProxy` is not part of this model: the system-property store is the function `Platform.systemProperty`, whose value or exception per key is given.
- `hasTelephony()` is the boolean `Platform.hasTelephony`; its reflective call of `hasSystemFeature` and its exception handling are not modelled.
- MD5 (`MessageDigest`) and `UUID.nameUUIDFromBytes` are function parameters; their algorithms, and the failure of `MessageDigest.getInstance`, are not modelled.
- `batteryLevel` is left out: it reads a broadcast intent and computes in floating point.
- `allCellInfo` is left out: it passes an opaque platform list through under the same guard as the other accessors.
- `deviceBuildId`, `deviceBuildName`, `deviceManufacturer`, `deviceBrand` and `deviceModel` are left out: each returns one `Build` field unchanged.
- `requestPermission` and `requestPermissionDialog` are left out: they only start the platform's permission UI.
- `@Synchronized` locking and the process-wide `lateinit` state are modelled by one `DeviceManagementObject` with a single caller; concurrency is not modelled.
- Strings are sequences of Unicode scalar values; unpaired surrogates, which a Kotlin `String` can hold, are not modelled.
- The `Build` string fields are non-null strings; a `null` field is not modelled. `getRadioVersion()` is the one nullable entry.
- `Platform.secureAndroidId` (`Settings.Secure.getString`) and `Platform.radioVersion` (`Build.getRadioVersion()`) are modelled as never throwing: each gives a value or `null`.
- UniquePseudoId: requires that `nameUuid` always returns a string of the `UUID.toString()` form; the version and variant bits that `nameUUIDFromBytes` sets are not modelled.
- `ArrayMap` iteration order is not modelled; maps are Dafny `map`s.
- RemoveBlankEntries: visits a snapshot of the keys once and removes by key. The source removes entries while iterating over the live key set of the `ArrayMap`, and how that iterator behaves under removal is not modelled.
- SerialNumberBySysProp: its ghost `consulted` result records which keys were looked up; lookups have no side effects in the model.
- Identify: requires a bound platform. In the source, `identify` called before `invoke` reads the uninitialised `lateinit` context inside the `try` of `getDeviceUniqueId` and returns ""; that case is not modelled.
