# Azure IoT device simulator: a verified model of its core

The simulator plays an IoT device, a module or, in its second version, an
application ("SimulationApp") connected to Azure IoT Hub. It sends
telemetry, error, commissioning and latency-probe messages in loops. It
answers direct methods that change its telemetry interval, reboot it or
echo a payload. It also validates its connection string. An Azure Function
sends latency probes back to devices in batches. This project models the
sequential logic under the SDK calls, in Dafny, and proves what that logic
promises.

The model follows the program's structure, one Dafny module per concern:

- `Outcomes`: the exceptions the code throws, named by their .NET type
  and parameter name, plus `Result`, `Option` and `Check` (pass or throw).
- `Text`: ordinal `IndexOf` and `Int32`/`Int64.TryParse`, including
  white-space trimming, trailing '\0' padding, an optional sign and range
  checks. It also holds
  decimal formatting and 32/64-bit wrap-around.
- `ConnectionStrings`: `ExtractValue`, with its index arithmetic as
  written.
- `Settings`: the settings records and their computed getters.
- `Randomness`: `Random.Next(lo, hi)` as a function of a raw draw.
- `TimeStamps`: `DateTime.TimeStamp()` on integer ticks, truncated toward
  zero.
- `JsonTree`: JSON as a tree. An object is an ordered list of members and
  lookup finds the first member with the key. Assignment replaces in place
  or appends. `EachFrom` is a `foreach` over an array whose body may throw.
  `ScalarValue` and `Int32Value` are Newtonsoft's `Value<string>()` and
  `Value<int>()` conversions.
- `IoTTools`: the connection-string checks, `UpdateIds` and
  `RandomizeData` (a method with a loop, proved against its specification
  function).
- `TelemetryMessages`: the composition in `SimpleTelemetryMessageService`.
- `DirectMethods`: the handler tables of the three entities and every
  handler as a pure function over the two fields the handlers share.
- `Entities`: a class `Entity` with the fields `telemetryInterval` and
  `stopProcessing`. Its methods `SetTelemetryInterval`, `StartReboot`,
  `CompleteReboot` and `Invoke` change those fields in place.
- `PublisherLoop`: the `while (true)` send loops as one method over a
  sequence of per-round observations, proved against a recursive
  specification.
- `SimulationApp`: what the second simulator does differently. That is its
  `RandomizeData` with the `wattsType` filter, the empty-template fault,
  the desired-property key checks and the bulk-upload record generation.
- `LatencyFunction`: the Azure Function's batch loop, which collects
  exceptions and decides the verdict by their count.

Everything the code reads from outside is a parameter of the model. That
covers the JSON parser, the clock readings, the random draws, each
round's send outcome and stop-flag reading, and the outcome of each
service call.

## Model

| member | source | states |
|---|---|---|
| Text.IndexOf | sources/IoT.Simulator/IoT.Simulator/Extensions/ConnectionStringExtensions.cs:10 | the first position where the pattern occurs (ordinal), and none exactly when it occurs nowhere |
| Text.FirstOccurrence | sources/IoT.Simulator/IoT.Simulator/Extensions/ConnectionStringExtensions.cs:10 | an occurrence with no earlier occurrence is the one `IndexOf` returns |
| Text.OccursAtChar | sources/IoT.Simulator/IoT.Simulator/Extensions/ConnectionStringExtensions.cs:15 | searching for ";" finds position i exactly when the character there is ';' |
| Text.IntToString | sources/IoT.Simulator/IoT.Simulator/Services/IoT/DeviceSimulationService.cs:496 | decimal text: never empty, a leading '-' exactly for negative values, only digits otherwise |
| Text.DigitsRoundTrip | sources/IoT.Simulator/IoT.Simulator/Services/IoT/DeviceSimulationService.cs:496 | reading the decimal digits of n back gives n |
| Text.ParseInteger | sources/IoT.Simulator/IoT.Simulator/Services/IoT/DeviceSimulationService.cs:428 | NumberStyles.Integer into a range: succeeds exactly when the text is well formed and its value lies within the bounds, and then gives that value |
| Text.IntegerSyntax | sources/IoT.Simulator/IoT.Simulator/Services/IoT/DeviceSimulationService.cs:428 | well-formed NumberStyles.Integer text (white space, optional sign, digits, white space, then optional trailing '\0' padding) holds a digit once the padding and white space are removed |
| Text.TryParseInt32 | sources/IoT.Simulator/IoT.Simulator/Services/IoT/DeviceSimulationService.cs:428 | `Int32.TryParse` succeeds with v exactly when the text parses to v within the int32 bounds |
| Text.TryParseInt64 | sources/IoT.Simulator/IoT.Simulator/Services/IoT/DeviceSimulationService.cs:489 | `Int64.TryParse` succeeds with v exactly when the text parses to v within the int64 bounds |
| Text.ParseIntToString | sources/IoT.Simulator/IoT.Simulator/Services/IoT/DeviceSimulationService.cs:428 | formatting an integer within bounds and parsing it back gives the same integer |
| Text.ParseDigits | sources/IoT.Simulator/IoT.Simulator/Services/IoT/DeviceSimulationService.cs:428 | a digit string within bounds parses to its value |
| Text.ParseNegatedDigits | sources/IoT.Simulator/IoT.Simulator/Services/IoT/DeviceSimulationService.cs:428 | a '-' before a digit string parses to the negated value |
| Text.NothingToTrim | sources/IoT.Simulator/IoT.Simulator/Services/IoT/DeviceSimulationService.cs:428 | text that starts and ends with a non-white character is unchanged by trimming |
| Text.TrimKeepsCharacters | sources/IoT.Simulator/IoT.Simulator/Services/IoT/DeviceSimulationService.cs:428 | trimming white space only removes characters |
| Text.TryParseInt32RoundTrip | sources/IoT.Simulator/IoT.Simulator/Services/IoT/DeviceSimulationService.cs:428 | every int32 survives `ToString` then `Int32.TryParse` |
| Text.TryParseInt64RoundTrip | sources/IoT.Simulator/IoT.Simulator/Services/IoT/DeviceSimulationService.cs:489 | every int64 survives `ToString` then `Int64.TryParse` |
| Text.NoDigitNoParse | sources/IoT.Simulator/IoT.Simulator/Services/IoT/DeviceSimulationService.cs:436-441 | text without a digit never parses |
| Text.TrailingNulsIgnored | sources/IoT.Simulator/IoT.Simulator/Services/IoT/DeviceSimulationService.cs:428 | a run of '\0' appended to any text does not change how it parses, so "5\0" reads as 5 |
| Text.Wrap32 | sources/IoT.Simulator/IoT.Simulator/Services/IoT/DeviceSimulationService.cs:200 | unchecked int arithmetic: the result is congruent to the exact value modulo 2^32 and equals it when in range |
| Text.Wrap64 | sources/IoT.Simulator/IoT.Simulator/Services/IoT/DeviceSimulationService.cs:496 | unchecked long arithmetic: the result is congruent to the exact value modulo 2^64 and equals it when in range |
| ConnectionStrings.ExtractValue | sources/IoT.Simulator/IoT.Simulator/Extensions/ConnectionStringExtensions.cs:5-23 | "" on empty data and when `key=` is absent; throws only if the key holds ';'; the result never holds ';'; a non-empty result sits between the first `key=` and a following ';' |
| ConnectionStrings.KeySeparatorInKey | sources/IoT.Simulator/IoT.Simulator/Extensions/ConnectionStringExtensions.cs:15-18 | `Remove` can throw only when the key itself contains ';' |
| ConnectionStrings.ValueLayout | sources/IoT.Simulator/IoT.Simulator/Extensions/ConnectionStringExtensions.cs:14-18 | the value cut out lies right after `key=` and is followed by ';' in the data |
| ConnectionStrings.ExtractRoundTrip | sources/IoT.Simulator/IoT.Simulator/Extensions/ConnectionStringExtensions.cs:14-18 | `p + key=v; + rest`, with no earlier `key=`, no ';' in v and rest non-empty, gives exactly v |
| ConnectionStrings.FinalFieldIsEmpty | sources/IoT.Simulator/IoT.Simulator/Extensions/ConnectionStringExtensions.cs:14-20 | a final field with no ';', or whose ';' is the last character, gives "" because the last character is never examined |
| ConnectionStrings.KeyMatchedInsideLongerName | sources/IoT.Simulator/IoT.Simulator/Extensions/ConnectionStringExtensions.cs:10 | `Id=` matches inside `DeviceId=`: the first plain occurrence wins |
| Randomness.Next | sources/IoT.Simulator/IoT.Simulator/Tools/IoTTools.cs:74 | `Random.Next(lo, hi)` lies in [lo, hi), and is lo when the range is empty |
| Randomness.NextCoversRange | sources/IoT.Simulator/IoT.Simulator/Tools/IoTTools.cs:74 | every value of the range is drawn by some raw draw |
| TimeStamps.ToUniversalTime | sources/IoT.Simulator/IoT.Simulator/Extensions/DateTimeExtensions.cs:9 | a UTC instant is kept; a local one moves by the local offset |
| TimeStamps.TruncDiv | sources/IoT.Simulator/IoT.Simulator/Extensions/DateTimeExtensions.cs:9 | the `(long)` cast of a quotient truncates toward zero, for both signs |
| TimeStamps.TimeStamp | sources/IoT.Simulator/IoT.Simulator/Extensions/DateTimeExtensions.cs:7-10 | the whole seconds between the UTC instant and 1970-01-01T00:00:00Z, truncated toward zero |
| TimeStamps.EpochIsZero | sources/IoT.Simulator/IoT.Simulator/Extensions/DateTimeExtensions.cs:9 | the epoch maps to 0 |
| TimeStamps.SameSecondSameStamp | sources/IoT.Simulator/IoT.Simulator/Extensions/DateTimeExtensions.cs:9 | instants within the same second after the epoch map to the same stamp |
| TimeStamps.TruncSecondsMonotone | sources/IoT.Simulator/IoT.Simulator/Extensions/DateTimeExtensions.cs:9 | truncated division by one second is monotone |
| TimeStamps.TimeStampMonotone | sources/IoT.Simulator/IoT.Simulator/Extensions/DateTimeExtensions.cs:9 | the stamp never decreases as the instant increases |
| TimeStamps.AddSecondsAddsK | sources/IoT.Simulator/IoT.Simulator/Extensions/DateTimeExtensions.cs:9 | adding k whole seconds after the epoch adds exactly k |
| TimeStamps.LocalAndUtcAgree | sources/IoT.Simulator/IoT.Simulator/Extensions/DateTimeExtensions.cs:9 | a local instant and its UTC equivalent give the same stamp |
| TimeStamps.Year2038 | sources/IoT.Simulator2/IoT.Simulator2.AF/LatencyTestRequest.cs:15-17 | from 2038-01-19 on, a stamp no longer fits the int `StartTimestamp` |
| Settings.Field | sources/IoT.Simulator/IoT.Simulator/Settings/SettingsBase.cs:11-20 | a getter's field: "" for an empty connection string, else `ExtractValue`'s result, never holding ';' |
| Settings.DeviceIdOf | sources/IoT.Simulator/IoT.Simulator/Settings/SettingsBase.cs:11-20 | `DeviceId` is "" for an empty connection string, else `ExtractValue(cs, "DeviceId")` |
| Settings.HostNameOf | sources/IoT.Simulator/IoT.Simulator/Settings/SettingsBase.cs:22-31 | `HostName` is "" for an empty connection string, else `ExtractValue(cs, "HostName")` |
| Settings.ModuleIdOf | sources/IoT.Simulator/IoT.Simulator/Settings/ModuleSettings.cs:8-17 | `ModuleId` is "" for an empty connection string, else `ExtractValue(cs, "ModuleId")` |
| Settings.ModuleArtifactIdOf | sources/IoT.Simulator/IoT.Simulator/Settings/ModuleSettings.cs:19-28 | the module's `ArtifactId` is "" for an empty connection string, else `DeviceId + "/" + ModuleId`, so it holds '/' even when both ids are empty |
| Settings.DeviceArtifactIdOf | sources/IoT.Simulator/IoT.Simulator/Settings/DeviceSettings.cs:7-10 | the device's `ArtifactId` is its `DeviceId`, with no separator |
| Settings.ModuleGettersFollowConnectionString | sources/IoT.Simulator/IoT.Simulator/Settings/ModuleSettings.cs:8-34 | after the connection string is reassigned, every getter follows the new string, and the simulation settings keep their last value |
| Settings.DeviceGettersFollowConnectionString | sources/IoT.Simulator/IoT.Simulator/Settings/SettingsBase.cs:9-31 | the same for device settings, where `ArtifactId` stays equal to `DeviceId` |
| Settings.ModuleArtifactIdSplits | sources/IoT.Simulator/IoT.Simulator/Settings/ModuleSettings.cs:24 | when the device id holds no '/', the module's `ArtifactId` splits at its first '/' into the device id and the module id |
| JsonTree.FindKey | sources/IoT.Simulator/IoT.Simulator/Tools/IoTTools.cs:68 | the position of the first member with the key, and none exactly when the key is absent |
| JsonTree.Get | sources/IoT.Simulator/IoT.Simulator/Tools/IoTTools.cs:68 | `TryGetValue` finds a value exactly when the key is present |
| JsonTree.Set | sources/IoT.Simulator/IoT.Simulator/Tools/IoTTools.cs:73-74 | after `obj[k] = v`, k reads back v; an existing key keeps its place and a new key goes last |
| JsonTree.GetSetOther | sources/IoT.Simulator/IoT.Simulator/Tools/IoTTools.cs:73-74 | assigning one key leaves every other key's value alone |
| JsonTree.SetFrame | sources/IoT.Simulator/IoT.Simulator/Tools/IoTTools.cs:73-74 | the same, for all other keys at once |
| JsonTree.SetSet | sources/IoT.Simulator/IoT.Simulator/Tools/IoTTools.cs:73-74 | of two assignments to one key, the second wins |
| JsonTree.SetExisting | sources/IoT.Simulator/IoT.Simulator/Tools/IoTTools.cs:98 | writing back the value already present changes nothing |
| JsonTree.SetCommutes | sources/IoT.Simulator/IoT.Simulator/Tools/IoTTools.cs:73-74 | assignments to two different existing keys commute |
| JsonTree.ScalarValue | sources/IoT.Simulator2/IoT.Simulator2/Services/SimulationApp.cs:585 | `Value<string>()` succeeds exactly on a non-container and then keeps the token, and throws an invalid-cast exception on an object or array |
| JsonTree.ValueOf | sources/IoT.Simulator2/IoT.Simulator2/Services/SimulationApp.cs:585-586 | `obj[key].Value<string>()`: a missing key throws `ArgumentNullException("value")`, a present key converts as `ScalarValue`; also SimulationApp.cs:825-834 and 861-873 |
| JsonTree.Int32Value | sources/IoT.Simulator2/IoT.Simulator2/Services/SimulationApp.cs:591 | `Value<int>()`: an exact result comes from an int, a boolean or well-formed text of that value; a container, null or an integer beyond 64 bits is an invalid cast; a 64-bit integer or text out of the int range overflows; malformed text is a format error; also SimulationApp.cs:862 |
| JsonTree.IntValueOf | sources/IoT.Simulator2/IoT.Simulator2/Services/SimulationApp.cs:591 | `obj[key].Value<int>()`: a missing key throws `ArgumentNullException("value")`, a present key converts as `Int32Value` |
| JsonTree.Int32ValueRoundTrip | sources/IoT.Simulator2/IoT.Simulator2/Services/SimulationApp.cs:591 | every int converts back to itself, from a number token and from its decimal text |
| JsonTree.EachFromSucceeds | sources/IoT.Simulator/IoT.Simulator/Tools/IoTTools.cs:71-75 | a `foreach` whose body may throw completes exactly when every step succeeds |
| JsonTree.EachFromFailure | sources/IoT.Simulator/IoT.Simulator/Tools/IoTTools.cs:71-75 | the first failing step's exception ends the `foreach` |
| JsonTree.EachFromLength | sources/IoT.Simulator/IoT.Simulator/Tools/IoTTools.cs:71-75 | a completed `foreach` yields one element per input element |
| JsonTree.EachFromAt | sources/IoT.Simulator/IoT.Simulator/Tools/IoTTools.cs:71-75 | element i of the result is what step i produced on element i |
| IoTTools.CheckDeviceConnectionStringData | sources/IoT.Simulator/IoT.Simulator/Tools/IoTTools.cs:12-35 | passes exactly when the string is non-empty, a logger exists and both `HostName` and `DeviceId` extract non-empty; otherwise it throws for the first failing test, in that order |
| IoTTools.CheckModuleConnectionStringData | sources/IoT.Simulator/IoT.Simulator/Tools/IoTTools.cs:37-55 | passes exactly when the device checks pass and `ModuleId` extracts non-empty; a device-check failure is thrown unchanged |
| IoTTools.ParseObject | sources/IoT.Simulator/IoT.Simulator/Tools/IoTTools.cs:91 | `JObject.Parse` succeeds exactly on text that parses to an object; otherwise it throws a reader exception |
| IoTTools.UpdateIdsObject | sources/IoT.Simulator/IoT.Simulator/Tools/IoTTools.cs:95-108 | same keys in the same order; "deviceId" is replaced only where present and never added; "moduleId" only when the argument is non-empty and the key is present; every other key is unchanged |
| IoTTools.UpdateIdsIdempotent | sources/IoT.Simulator/IoT.Simulator/Tools/IoTTools.cs:91-110 | stamping the ids twice is stamping them once |
| IoTTools.UpdateIds | sources/IoT.Simulator/IoT.Simulator/Tools/IoTTools.cs:83-113 | rejects empty json and then an empty deviceId, propagates a parse failure, else stamps the parsed object |
| IoTTools.StampItem | sources/IoT.Simulator/IoT.Simulator/Tools/IoTTools.cs:73-74 | the loop body succeeds exactly on an object element; an array element throws an argument exception and a scalar an invalid-operation exception |
| IoTTools.StampItemSetsTwoProperties | sources/IoT.Simulator/IoT.Simulator/Tools/IoTTools.cs:73-74 | "timestamp" becomes the clock reading, the value key becomes the decimal text of a draw in [150, 300), and every other key is kept |
| IoTTools.StampAllSucceeds | sources/IoT.Simulator/IoT.Simulator/Tools/IoTTools.cs:71-75 | the loop over "data" completes exactly when every element is an object |
| IoTTools.StampAllFirstFailure | sources/IoT.Simulator/IoT.Simulator/Tools/IoTTools.cs:71-75 | the first non-object element's exception ends the loop |
| IoTTools.RandomizeObjectIsLoop | sources/IoT.Simulator/IoT.Simulator/Tools/IoTTools.cs:68-78 | with an array under "data", the randomized object succeeds exactly when the loop does, and fails with its exception |
| IoTTools.RandomizeObjectSucceeds | sources/IoT.Simulator/IoT.Simulator/Tools/IoTTools.cs:68-78 | with an array under "data", randomizing succeeds exactly when every element is an object |
| IoTTools.RandomizeObjectFails | sources/IoT.Simulator/IoT.Simulator/Tools/IoTTools.cs:71-75 | randomizing fails with the exception of the first non-object element |
| IoTTools.RandomizeObjectKeepsShape | sources/IoT.Simulator/IoT.Simulator/Tools/IoTTools.cs:68-78 | no array under "data" leaves the object unchanged; otherwise keys, their order and every other top-level value are kept, and "data" keeps its length with element i stamped from clock reading i and draw i |
| IoTTools.StampAllPointwise | sources/IoT.Simulator/IoT.Simulator/Tools/IoTTools.cs:71-75 | a completed loop stamps element i with reading i and draw i, and keeps the length |
| IoTTools.RandomizeShapeIndependentOfClock | sources/IoT.Simulator/IoT.Simulator/Tools/IoTTools.cs:70-75 | whether randomizing succeeds, and the keys it yields, depend on neither the clock nor the draws |
| IoTTools.StampItems | sources/IoT.Simulator/IoT.Simulator/Tools/IoTTools.cs:71-75 | the `foreach` loop computes the specified stamping of the array |
| IoTTools.RandomizeData | sources/IoT.Simulator/IoT.Simulator/Tools/IoTTools.cs:57-81 | the method computes the specification: reject empty text, parse, randomize "data" |
| TelemetryMessages.ReadTemplate | sources/IoT.Simulator/IoT.Simulator/Services/Messages/SimpleTelemetryMessageService.cs:24-32 | an empty template throws `ArgumentNullException("messageString")`; otherwise the text is returned |
| TelemetryMessages.TracingArtifactId | sources/IoT.Simulator/IoT.Simulator/Services/Messages/SimpleTelemetryMessageService.cs:36 | the tracing id is moduleId when non-empty, else deviceId |
| TelemetryMessages.Serialized | sources/IoT.Simulator/IoT.Simulator/Services/Messages/SimpleTelemetryMessageService.cs:46-49 | serializing keeps a failure and serializes a success |
| TelemetryMessages.GetMessageFor | sources/IoT.Simulator/IoT.Simulator/Services/Messages/SimpleTelemetryMessageService.cs:34-50 | an empty template throws; otherwise the message is the serialized `UpdateIds` of the template |
| TelemetryMessages.RandomizedMessageComposes | sources/IoT.Simulator/IoT.Simulator/Services/Messages/SimpleTelemetryMessageService.cs:52-64 | when parsing reads serialized trees back, the randomized message is `RandomizeData(UpdateIds(template))` on trees |
| TelemetryMessages.RandomizedTreeKeepsIds | sources/IoT.Simulator/IoT.Simulator/Services/Messages/SimpleTelemetryMessageService.cs:56-60 | randomizing keeps the keys and the stamped deviceId and moduleId |
| TelemetryMessages.RandomizedTreeStampsData | sources/IoT.Simulator/IoT.Simulator/Services/Messages/SimpleTelemetryMessageService.cs:56-63 | after the ids are stamped, each "data" element is stamped from its own clock reading and draw |
| DirectMethods.Lookup | sources/IoT.Simulator/IoT.Simulator/Services/IoT/DeviceSimulationService.cs:378-417 | a registered name reaches its handler, any other name the default handler where there is one; the module (ModuleSimulationService.cs:295-313) registers six names with no latency handler, and the app (SimulationApp.cs:408-420) eight names and no default handler, so an unknown name reaches nothing there |
| DirectMethods.LatencyBindings | sources/IoT.Simulator2/IoT.Simulator2/Services/SimulationApp.cs:413 | the app binds "SendLatencyTest" to the latency callback; the module sends both latency names to its default handler |
| DirectMethods.DecodeData | sources/IoT.Simulator/IoT.Simulator/Services/IoT/DeviceSimulationService.cs:425 | decoding a null payload throws `ArgumentNullException("bytes")` |
| DirectMethods.SetInterval | sources/IoT.Simulator/IoT.Simulator/Services/IoT/DeviceSimulationService.cs:421-442 | the interval becomes TryParse's out value (0 on failure) and the stop flag is untouched; an int32 payload is answered 200 "Executed direct method", a bad one "Invalid parameter" with 200 on the device and 400 on the module (ModuleSimulationService.cs:341-345) and the app (SimulationApp.cs:426-447) |
| DirectMethods.Latency | sources/IoT.Simulator/IoT.Simulator/Services/IoT/DeviceSimulationService.cs:484-497 | latency is callbackTimestamp minus the parsed start, or minus 0 when the payload does not parse |
| DirectMethods.LatencyCallback | sources/IoT.Simulator/IoT.Simulator/Services/IoT/DeviceSimulationService.cs:480-498 | 200 with a body naming the method and giving the latency, on the device and in the app (SimulationApp.cs:487-505); throws on a null payload |
| DirectMethods.Acknowledge | sources/IoT.Simulator/IoT.Simulator/Services/IoT/DeviceSimulationService.cs:444-478 | `GenericJToken` and `Generic` answer 200 "Executed direct method", and throw on a null payload |
| DirectMethods.DefaultBody | sources/IoT.Simulator/IoT.Simulator/Services/IoT/DeviceSimulationService.cs:596-612 | the default answer, on the device and the module (ModuleSimulationService.cs:469-486), names the method and echoes the payload, or "" when Data is null |
| DirectMethods.DeserializeJObject | sources/IoT.Simulator2/IoT.Simulator2/Services/SimulationApp.cs:583 | empty text and the null literal give null and an object gives itself; text that is not JSON throws a reader exception, other JSON (array, number, string) a serialization exception |
| DirectMethods.ItemReport | sources/IoT.Simulator2/IoT.Simulator2/Services/SimulationApp.cs:589-591 | one item: a non-object is an invalid cast; then `wattsType` is read as a string and `wattsTypeValue` as an int, each failure named; otherwise the report carries the sensor id, version, watts type and converted value |
| DirectMethods.ConfigurationItems | sources/IoT.Simulator2/IoT.Simulator2/Services/SimulationApp.cs:589-592 | report i is exactly what item i yields, in order; the loop completes only when every item does, and otherwise throws the exception of the first failing item after the reports of the items before it |
| DirectMethods.StartOrStopHandled | sources/IoT.Simulator2/IoT.Simulator2/Services/SimulationApp.cs:575-600 | a null payload throws `ArgumentNullException("methodRequest.Data")` and a deserialization failure is passed on; the fields are never touched. The app: a null object or a missing "data" is a null reference, "S1" and "configurationVersion" are read as strings in that order, a non-array "data" is an invalid cast, and the reports launched and the answer are those of `ConfigurationItems`. The module (ModuleSimulationService.cs:443-459): a null object is a null reference, a non-array "data" an invalid cast, else 200. The device (DeviceSimulationService.cs:567-586) answers 200 whenever the payload deserializes and launches nothing |
| DirectMethods.AppReportsEveryItem | sources/IoT.Simulator2/IoT.Simulator2/Services/SimulationApp.cs:583-599 | a payload with plain "S1" and "configurationVersion" and a non-empty array of items each with a string watts type and an int value answers 200 and launches one report per item, in order, with that item's values |
| DirectMethods.AppOverflowLaunchesNothing | sources/IoT.Simulator2/IoT.Simulator2/Services/SimulationApp.cs:589-591 | a first item whose value is a long beyond the int range throws an overflow exception before any report is launched |
| DirectMethods.FieldsWrittenOnlyByTheirHandlers | sources/IoT.Simulator/IoT.Simulator/Services/IoT/DeviceSimulationService.cs:421-612 | only `SetTelemetryInterval` writes the interval and only `Reboot` writes the stop flag, raising it |
| DirectMethods.SetIntervalRoundTrip | sources/IoT.Simulator/IoT.Simulator/Services/IoT/DeviceSimulationService.cs:428-435 | sending the text of an int32 sets the interval to it and answers 200 "Executed direct method" |
| DirectMethods.SetIntervalIgnoresTrailingNuls | sources/IoT.Simulator/IoT.Simulator/Services/IoT/DeviceSimulationService.cs:428-434 | an int32's text followed by '\0' padding still sets the interval to it and answers 200 |
| DirectMethods.SetIntervalRejects | sources/IoT.Simulator/IoT.Simulator/Services/IoT/DeviceSimulationService.cs:436-441 | a payload without a digit zeroes the interval and answers "Invalid parameter"; the status is 200 exactly on the device, 400 on the module (ModuleSimulationService.cs:341-345) and the app |
| DirectMethods.LatencyRoundTrip | sources/IoT.Simulator/IoT.Simulator/Services/IoT/DeviceSimulationService.cs:489-496 | a payload that is the text of the start stamp gives callbackTimestamp minus the start |
| DirectMethods.LatencyOfGarbage | sources/IoT.Simulator/IoT.Simulator/Services/IoT/DeviceSimulationService.cs:486-496 | a payload without a digit gives latency equal to callbackTimestamp |
| DirectMethods.AppSendLatencyTestAnswersLatency | sources/IoT.Simulator2/IoT.Simulator2/Services/SimulationApp.cs:408-420 | "SendLatencyTest" on the app answers a latency body, launches nothing and leaves the fields alone |
| DirectMethods.SendLatencyTestPerHost | sources/IoT.Simulator/IoT.Simulator/Services/IoT/DeviceSimulationService.cs:500-507 | on the device "SendLatencyTest" launches a one-shot latency probe and answers 200 at once; on the module (ModuleSimulationService.cs:295-313) it falls to the default handler |
| DirectMethods.UnregisteredNames | sources/IoT.Simulator/IoT.Simulator/Services/IoT/DeviceSimulationService.cs:596-612 | an unknown name gets the default answer on device and module, and no handler on the app |
| DirectMethods.RebootRaisesStop | sources/IoT.Simulator/IoT.Simulator/Services/IoT/DeviceSimulationService.cs:509-528 | "Reboot" raises the stop flag, launches the reboot sequence and answers 200 at once, on every host (ModuleSimulationService.cs:385-393 for the module) |
| DirectMethods.ReadTwinsAnswers | sources/IoT.Simulator/IoT.Simulator/Services/IoT/DeviceSimulationService.cs:588-594 | "ReadTwins" launches a twin read and leaves the fields alone; device and module (ModuleSimulationService.cs:461-467) answer 200 "Executed direct method", the app (SimulationApp.cs:602-607) 400 "Twins read" |
| Entities.Entity.ForDevice | sources/IoT.Simulator/IoT.Simulator/Services/IoT/DeviceSimulationService.cs:34-88 | the interval comes from the simulation settings, the stop flag starts down, and the device id comes from the connection string |
| Entities.Entity.ForModule | sources/IoT.Simulator/IoT.Simulator/Services/IoT/ModuleSimulationService.cs:60-61 | the interval starts at 10 whatever the settings say, and the stop flag starts down |
| Entities.Entity.ForApp | sources/IoT.Simulator2/IoT.Simulator2/Services/SimulationApp.cs:30-57 | the interval comes from the simulation settings and the stop flag starts down |
| Entities.Entity.SetTelemetryInterval | sources/IoT.Simulator/IoT.Simulator/Services/IoT/DeviceSimulationService.cs:421-442 | writes the interval in place as `SetInterval` specifies for the entity's host (ModuleSimulationService.cs:326-347, SimulationApp.cs:426-447 for the others) and leaves the stop flag alone |
| Entities.Entity.StartReboot | sources/IoT.Simulator/IoT.Simulator/Services/IoT/DeviceSimulationService.cs:519-528 | the part of the reboot that runs before the handler returns raises the stop flag |
| Entities.Entity.CompleteReboot | sources/IoT.Simulator/IoT.Simulator/Services/IoT/DeviceSimulationService.cs:529-565 | reports "rebooting", then "online" unless the first report threw; the exception is caught; `finally` lowers the stop flag on every path, as in the module (ModuleSimulationService.cs:395-441) and the app (SimulationApp.cs:526-573) |
| Entities.Entity.Invoke | sources/IoT.Simulator/IoT.Simulator/Services/IoT/DeviceSimulationService.cs:378-417 | a call runs the bound handler; the object's fields become exactly the handler's new fields |
| Entities.RebootReport | sources/IoT.Simulator/IoT.Simulator/Services/IoT/DeviceSimulationService.cs:541-554 | the reported property `iothubDM` holds "reboot" and "rebootStatus" |
| Entities.RebootCycle | sources/IoT.Simulator/IoT.Simulator/Services/IoT/DeviceSimulationService.cs:509-565 | a full reboot answers 200 with the flag raised, and leaves the flag down and the interval unchanged |
| PublisherLoop.LatencyProbeBody | sources/IoT.Simulator/IoT.Simulator/Services/IoT/DeviceSimulationService.cs:290-295 | the probe holds the device id, messageType "latency" and the start stamp (spelled "starttimestamp" by the app) |
| PublisherLoop.RoundMessage | sources/IoT.Simulator/IoT.Simulator/Services/IoT/DeviceSimulationService.cs:164-317 | a round's message is the message service's result with the loop's message-type property, and the latency loop always builds its probe; telemetry is encoded as UTF-8 (line 178), the error, commissioning and latency messages as ASCII (lines 217, 256, 299; ModuleSimulationService.cs:196,235; SimulationApp.cs:266,299,336) |
| PublisherLoop.AsciiText | sources/IoT.Simulator/IoT.Simulator/Services/IoT/DeviceSimulationService.cs:217 | `Encoding.ASCII` keeps the length, keeps every ASCII character and turns every other character into '?' |
| PublisherLoop.AsciiKeepsTextIff | sources/IoT.Simulator/IoT.Simulator/Services/IoT/DeviceSimulationService.cs:217 | ASCII encoding leaves a text unchanged exactly when every character is ASCII |
| PublisherLoop.AsciiIdempotent | sources/IoT.Simulator/IoT.Simulator/Services/IoT/DeviceSimulationService.cs:217 | encoding ASCII output again changes nothing |
| PublisherLoop.WireText | sources/IoT.Simulator/IoT.Simulator/Services/IoT/DeviceSimulationService.cs:178-217 | the text a receiver decodes: the body itself for UTF-8, its ASCII replacement otherwise |
| PublisherLoop.DelayOutcome | sources/IoT.Simulator/IoT.Simulator/Services/IoT/DeviceSimulationService.cs:200 | `Task.Delay(interval * 1000)` with the wrapped product: continue exactly when non-negative, wait forever exactly at -1, throw `ArgumentOutOfRange` exactly below |
| PublisherLoop.RoundCases | sources/IoT.Simulator/IoT.Simulator/Services/IoT/DeviceSimulationService.cs:164-203 | a round sends exactly when its message is built and the send returns; it then breaks on the stop flag or the one-shot latency probe, and otherwise goes by the delay |
| PublisherLoop.RunFromStep | sources/IoT.Simulator/IoT.Simulator/Services/IoT/DeviceSimulationService.cs:164-203 | one round of the loop followed by the rest |
| PublisherLoop.Publish | sources/IoT.Simulator/IoT.Simulator/Services/IoT/DeviceSimulationService.cs:164-203 | the send loop, run over observed rounds, computes the specified run; the same method serves the module (ModuleSimulationService.cs:143-182) and the app (SimulationApp.cs:210-255) with their counters |
| PublisherLoop.CounterCountsSends | sources/IoT.Simulator/IoT.Simulator/Services/IoT/DeviceSimulationService.cs:166-189 | the counter ends at its start plus its step per message sent; the step is 0 for the module's commissioning loop (ModuleSimulationService.cs:226-247), whose counter is never incremented |
| PublisherLoop.StoppedAfterSend | sources/IoT.Simulator/IoT.Simulator/Services/IoT/DeviceSimulationService.cs:188-198 | a loop that stops has sent at least one message |
| PublisherLoop.StopsAtFirstStop | sources/IoT.Simulator/IoT.Simulator/Services/IoT/DeviceSimulationService.cs:194-198 | the loop stops right after the first round that sees the stop flag, having sent every round's message in order |
| PublisherLoop.FaultsAtFirstFailure | sources/IoT.Simulator/IoT.Simulator/Services/IoT/DeviceSimulationService.cs:164-203 | the first exception from the message service or the send ends the loop, after the messages already sent |
| PublisherLoop.LatencyIsOneShot | sources/IoT.Simulator/IoT.Simulator/Services/IoT/DeviceSimulationService.cs:283-320 | with interval 0 or less the latency loop sends exactly one probe and stops, in the app too (SimulationApp.cs:348-349) |
| PublisherLoop.NegativeDelayFaults | sources/IoT.Simulator/IoT.Simulator/Services/IoT/DeviceSimulationService.cs:238 | a fixed interval whose wrapped product is below -1 faults the loop after one message |
| PublisherLoop.FixedIntervalIgnoresField | sources/IoT.Simulator/IoT.Simulator/Services/IoT/DeviceSimulationService.cs:238 | the error, commissioning and latency loops do not depend on the interval field |
| PublisherLoop.RoundIgnoresField | sources/IoT.Simulator/IoT.Simulator/Services/IoT/DeviceSimulationService.cs:277 | one round of those loops does not depend on the interval field |
| SimulationApp.WattsTypeCheck | sources/IoT.Simulator2/IoT.Simulator2/Services/SimulationApp.cs:188 | the filter says yes exactly on an object whose "wattsType" is "At"; a missing key, a container value or a non-object element throws the named exception |
| SimulationApp.RandomizeEntry | sources/IoT.Simulator2/IoT.Simulator2/Services/SimulationApp.cs:186-201 | the body of the outer loop computes the specified entry |
| SimulationApp.RandomizeData | sources/IoT.Simulator2/IoT.Simulator2/Services/SimulationApp.cs:171-207 | the nested loops compute the specification: reject empty text, parse, randomize the "At" entries |
| SimulationApp.AppEntryChangesOnlyAtEntries | sources/IoT.Simulator2/IoT.Simulator2/Services/SimulationApp.cs:184-200 | an entry changes only when it is an object with "wattsType" "At" and an array under "dataItems" |
| SimulationApp.AppEntryStampsDataItems | sources/IoT.Simulator2/IoT.Simulator2/Services/SimulationApp.cs:194-198 | such an entry keeps its keys and other values, and its data item j is stamped with "timestamp" and a "value" drawn in [150, 300) |
| SimulationApp.RandomizeEntriesKeepsShape | sources/IoT.Simulator2/IoT.Simulator2/Services/SimulationApp.cs:184-201 | randomizing keeps the top-level keys and values other than "data", and "data" keeps its length with entry i randomized from its own clock and draws |
| SimulationApp.TelemetryMessage | sources/IoT.Simulator2/IoT.Simulator2/Services/SimulationApp.cs:224-227 | an empty template throws `ArgumentNullException("messageString")`; otherwise the message is the randomized template |
| SimulationApp.FileMessage | sources/IoT.Simulator2/IoT.Simulator2/Services/SimulationApp.cs:261-264 | the error and commissioning loops throw on an empty file and otherwise send it as it is |
| SimulationApp.EmptyFileFaultsLoop | sources/IoT.Simulator2/IoT.Simulator2/Services/SimulationApp.cs:224-227 | an empty template faults the loop before anything is sent |
| SimulationApp.Required | sources/IoT.Simulator2/IoT.Simulator2/Services/SimulationApp.cs:824-837 | a missing key throws under the given parameter name; a present key must hold a scalar |
| SimulationApp.ConfigurationReported | sources/IoT.Simulator2/IoT.Simulator2/Services/SimulationApp.cs:711-735 | the reported "configuration" holds `Id_deviceId`, `S1`, `configurationVersion` and `data` in that order |
| SimulationApp.ConfigurationData | sources/IoT.Simulator2/IoT.Simulator2/Services/SimulationApp.cs:842-884 | data that is not an object reports nothing; an object without "wattsTypeValue" is reported flattened; with it, a value of another type reports nothing, a failing `wattsType` read or `Value<int>()` conversion throws its exception, and a report holds exactly the watts type and the value |
| SimulationApp.DesiredConfiguration | sources/IoT.Simulator2/IoT.Simulator2/Services/SimulationApp.cs:811-885 | the keys are checked in the order `Id_deviceId`, `S1`, `configurationVersion`, `data`; success means all four are present, and a report carries exactly their values |
| SimulationApp.CompleteConfigurationPassesChecks | sources/IoT.Simulator2/IoT.Simulator2/Services/SimulationApp.cs:824-884 | with all four keys present and scalar, the outcome is decided by the "data" value alone |
| SimulationApp.MissingKeysNamed | sources/IoT.Simulator2/IoT.Simulator2/Services/SimulationApp.cs:834-840 | a missing `configurationVersion` is named; a missing `data` is reported under the name `deviceId` |
| SimulationApp.ItemOffset | sources/IoT.Simulator2/IoT.Simulator2/Services/SimulationApp.cs:136-139 | each item's offset lies inside its record's three-minute slot |
| SimulationApp.ReadingParses | sources/IoT.Simulator2/IoT.Simulator2/Services/SimulationApp.cs:137-139 | a reading's text parses back to a value in its range |
| SimulationApp.PresenceIsZero | sources/IoT.Simulator2/IoT.Simulator2/Services/SimulationApp.cs:139 | `rand.Next(0, 1)` is always 0, so presence is always "0" |
| SimulationApp.UploadRecord | sources/IoT.Simulator2/IoT.Simulator2/Services/SimulationApp.cs:132-145 | every record holds four data items |
| SimulationApp.UploadRecordLayout | sources/IoT.Simulator2/IoT.Simulator2/Services/SimulationApp.cs:132-145 | a record carries the device id, type "data", schema "v1.0", and temperature, pressure, humidity and presence with their units |
| SimulationApp.UploadReadingsInRange | sources/IoT.Simulator2/IoT.Simulator2/Services/SimulationApp.cs:137-139 | pressure lies in [900, 1500), humidity in [0, 100), presence is 0 |
| SimulationApp.UploadStampsOrdered | sources/IoT.Simulator2/IoT.Simulator2/Services/SimulationApp.cs:136-139 | every stamp of an earlier record comes no later than every stamp of a later one |
| SimulationApp.BuildUploadBatch | sources/IoT.Simulator2/IoT.Simulator2/Services/SimulationApp.cs:129-148 | the `while` loop yields exactly `NumberOfMessagesToUpload` records (none when negative), record i built for index i |
| LatencyFunction.Request | sources/IoT.Simulator2/IoT.Simulator2.AF/IoTFunctions.cs:37-49 | an event yields an invocation exactly when its body is non-empty and deserializes to a request; the invocation calls "LatencyTestCallback" on the request's device with a 30-second timeout |
| LatencyFunction.RequestFailures | sources/IoT.Simulator2/IoT.Simulator2.AF/IoTFunctions.cs:37-43 | an empty body, a deserializer exception and a null request each fail with their own exception |
| LatencyFunction.PayloadReadsBack | sources/IoT.Simulator2/IoT.Simulator2.AF/IoTFunctions.cs:45-46 | the payload parses back to the request's `StartTimestamp` |
| LatencyFunction.Requests | sources/IoT.Simulator2/IoT.Simulator2.AF/IoTFunctions.cs:31-62 | the request of each event, in event order |
| LatencyFunction.Failures | sources/IoT.Simulator2/IoT.Simulator2.AF/IoTFunctions.cs:55-61 | what each event ends with, in event order |
| LatencyFunction.Batch | sources/IoT.Simulator2/IoT.Simulator2.AF/IoTFunctions.cs:17-71 | an absent or empty batch does nothing; a missing client throws before any event; invocations happen only through a client |
| LatencyFunction.Run | sources/IoT.Simulator2/IoT.Simulator2.AF/IoTFunctions.cs:17-71 | the `foreach` loop computes the specified batch |
| LatencyFunction.BatchStep | sources/IoT.Simulator2/IoT.Simulator2.AF/IoTFunctions.cs:31-62 | one more event adds its invocation, if any, and its exception, if any, at the end |
| LatencyFunction.RequestsAppend | sources/IoT.Simulator2/IoT.Simulator2.AF/IoTFunctions.cs:31-62 | the requests of two event runs are concatenated |
| LatencyFunction.DeliveredAppend | sources/IoT.Simulator2/IoT.Simulator2.AF/IoTFunctions.cs:31-62 | the delivered invocations of two request runs are concatenated |
| LatencyFunction.InvocationsAppend | sources/IoT.Simulator2/IoT.Simulator2.AF/IoTFunctions.cs:31-62 | the invocations of two event runs are concatenated |
| LatencyFunction.DeliveredAreTheFormed | sources/IoT.Simulator2/IoT.Simulator2.AF/IoTFunctions.cs:45-49 | exactly the well-formed requests are delivered |
| LatencyFunction.InvocationsAreTheWellFormedRequests | sources/IoT.Simulator2/IoT.Simulator2.AF/IoTFunctions.cs:45-49 | exactly the events with a well-formed request are invoked |
| LatencyFunction.NothingCollectedIff | sources/IoT.Simulator2/IoT.Simulator2.AF/IoTFunctions.cs:55-61 | no exception is collected exactly when no event fails |
| LatencyFunction.OnlyFailureCollected | sources/IoT.Simulator2/IoT.Simulator2.AF/IoTFunctions.cs:55-61 | a single failing event yields exactly its exception |
| LatencyFunction.CollectedIndex | sources/IoT.Simulator2/IoT.Simulator2.AF/IoTFunctions.cs:55-61 | each failure is collected, at the position given by the failures before it |
| LatencyFunction.CollectedPrefix | sources/IoT.Simulator2/IoT.Simulator2.AF/IoTFunctions.cs:55-61 | the exceptions of a prefix of the batch are a prefix of the batch's |
| LatencyFunction.CollectedInOrder | sources/IoT.Simulator2/IoT.Simulator2.AF/IoTFunctions.cs:55-61 | an earlier failure is collected before a later one |
| LatencyFunction.NothingCaughtIff | sources/IoT.Simulator2/IoT.Simulator2.AF/IoTFunctions.cs:55-61 | the exception list is empty exactly when no event fails |
| LatencyFunction.OnlyFailureCaught | sources/IoT.Simulator2/IoT.Simulator2.AF/IoTFunctions.cs:55-61 | with one failing event, the list holds exactly its exception |
| LatencyFunction.FailuresCaughtInOrder | sources/IoT.Simulator2/IoT.Simulator2.AF/IoTFunctions.cs:55-61 | exceptions appear in event order: one failure is never skipped by a later one |
| LatencyFunction.AllDeliveredPasses | sources/IoT.Simulator2/IoT.Simulator2.AF/IoTFunctions.cs:65-69 | with every event well formed and answered, the function passes and invokes once per event |
| LatencyFunction.InvocationsCount | sources/IoT.Simulator2/IoT.Simulator2.AF/IoTFunctions.cs:45-49 | with every event well formed, there is one invocation per event |
| LatencyFunction.DeliveredCount | sources/IoT.Simulator2/IoT.Simulator2.AF/IoTFunctions.cs:45-49 | with every request well formed, every one is delivered |
| LatencyFunction.SingleFailureRethrown | sources/IoT.Simulator2/IoT.Simulator2.AF/IoTFunctions.cs:68-69 | one failure rethrows that same exception |
| LatencyFunction.SeveralFailuresAggregated | sources/IoT.Simulator2/IoT.Simulator2.AF/IoTFunctions.cs:65-66 | two or more failures throw an aggregate holding all the exceptions, in event order |
| LatencyFunction.DeviceAnswersLatency | sources/IoT.Simulator2/IoT.Simulator2.AF/IoTFunctions.cs:45-49 | the device answers a probe invocation with the latency measured from the request's start stamp |
| LatencyFunction.CallbackAnswers | sources/IoT.Simulator/IoT.Simulator/Services/IoT/DeviceSimulationService.cs:480-498 | the device's callback answers the function's payload with callbackTimestamp minus the start |

## Left out

- Azure SDK transport is not modelled: client creation, `SendEventAsync`, reported-property updates, `GetTwinAsync`, cloud-to-device receive, blob upload and `InvokeDeviceMethodAsync`. Each appears only as an outcome the model is given, pass or a named exception.
- Concurrency is not modelled. Fire-and-forget tasks, `Task.Delay` durations, `Task.Yield`, and races between the loops and the handlers on the two shared fields are outside the model. One loop or handler runs at a time, and the value of a field a loop reads is an input of that round.
- The loops' `while (true)` is modelled over a finite sequence of observed rounds. A run that uses up its observations ends as `Running`.
- JSON text is not modelled: the Newtonsoft parser, `SerializeObject` with indentation and `JToken.FromObject`. Parsing is a parameter. `Value<string>()` is modelled as keeping the token (a container throws); the text it converts a scalar to is not modelled. Where the code serializes and parses again between `UpdateIds` and `RandomizeData`, the model assumes a parser that reads serialized trees back (`TelemetryMessages.RoundTrips`).
- Random generator seeding, `DateTime.Now`/`UtcNow` and the local time-zone offset are parameters: raw draws, clock readings and an offset in ticks.
- Randomness.Next: maps a raw draw into the range as `lo + raw % (hi - lo)`, which stands for the generator's own algorithm.
- Floating point is not modelled: `TotalSeconds` is taken as exact tick arithmetic, and `rand.NextDouble() * 50` and the loop's random temperatures are opaque text.
- `IndexOf` is modelled as an ordinal search; the culture-sensitive comparison of `string.IndexOf(string)` is not.
- UTF-8 encoding and decoding of payloads and event bodies is the identity on text; only a null payload is distinguished. ASCII encoding is modelled by `PublisherLoop.AsciiText` on text bodies; the bytes of a serialized body are not modelled, so the latency probe's ASCII text is not computed.
- Null checks against values the model cannot express as null (loggers, settings objects, message services) are left out. The exception is the logger check in `CheckDeviceConnectionStringData`, which is a boolean input.
- Startup and registration side effects are left out: `SetDesiredPropertyUpdateCallbackAsync`, the connection-status handler, the initial twin reads and reports, and logging.
- The twin reports of the firmware update, `loadInstallation`, `testUpdate` and `Ak` desired properties in `SimulationApp.cs` are not modelled. Only the "configuration" branch is.
- Of `ReportConfigurationUpdateAsync`, only the shape of the reported "configuration" object is modelled. The overload that takes wattsType and wattsTypeValue is represented only by `ConfigurationItems`' report records.
- The cloud-to-device receive loop and the file upload of the device and the app are not modelled; they are SDK calls with logging.
- `ReadTwins`: the handler is modelled as launching a twin read (`TwinRead`), but the read itself is an SDK call and is not modelled.
- The app's second `SendLatencyTest` method is not modelled. Its body has a missing brace and no handler table refers to it; the table binds "SendLatencyTest" to `LatencyTestCallback` instead.
- `ConvertToTimeStamp` in `IoTFunctions.cs` is never called and is not modelled.
- LatencyFunction.Batch: the service client is either created, null, or fails with its own exception. Logging and `Task.Yield` are left out.
- SimulationApp.RandomizeEntriesKeepsShape: the first-failure behaviour of the app's outer loop is stated only through the generic `JsonTree.EachFromFailure`, not as a separate lemma.
- DirectMethods.DefaultBody: states the keys and the echoed payload but not the exact wording of the "result" text.
- DirectMethods.Latency: the latency is stated exactly only when the difference fits in 64 bits; beyond that the model computes the wrapped difference, but no ensures states it.
- Text.ParseInteger: the sign symbols are taken as the invariant culture's '-' and '+'; `Int32.TryParse(string, out int)` uses the current culture's `NumberFormatInfo`, which is not modelled.
- JsonTree.Int32Value: for a non-integer number, `Convert.ToInt32(double)` rounds, and it overflows beyond the int range; floating point is not modelled, so the literal is kept (`RoundedFrom`) and that overflow is not stated. Newtonsoft's reading of date-like strings as date tokens, which `Value<int>()` cannot convert, is not modelled either.
