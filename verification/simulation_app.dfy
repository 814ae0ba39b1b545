/** What the second simulator's `SimulationApp` does beyond the handler
    table it shares with the other entities: its own RandomizeData, which
    only refreshes the data items of "At" entries; the messages its send
    loops read from files; the checks on a desired "configuration"
    property; and the bulk-upload batch it builds. */
module SimulationApp {
  import opened Outcomes
  import opened Text
  import opened JsonTree
  import opened Randomness
  import opened IoTTools
  import opened DirectMethods
  import opened PublisherLoop

  // ---------------------------------------------------------------------
  // RandomizeData with the wattsType filter
  // ---------------------------------------------------------------------

  /** `item["wattsType"].Value<string>() == "At"`: the indexer throws on an
      array or a plain value, Value<string>() throws on a missing token
      and on an object or array token. */
  function WattsTypeIsAt(item: Json): Result<bool> {
    match item
    case JObj(ms) =>
      (match Get(ms, "wattsType")
       case None => Failure(ArgumentNull("value"))
       case Some(JObj(_)) => Failure(InvalidCast)
       case Some(JArr(_)) => Failure(InvalidCast)
       case Some(v) => Success(v == JStr("At")))
    case JArr(_) => Failure(Argument(""))
    case _ => Failure(InvalidOperation)
  }

  /** The check succeeds, and says yes, exactly on an object whose
      "wattsType" is the string "At"; each way of throwing is named. */
  lemma WattsTypeCheck(item: Json)
    ensures WattsTypeIsAt(item) == Success(true) <==> item.JObj? && Get(item.members, "wattsType") == Some(JStr("At"))
    ensures WattsTypeIsAt(item).Success? ==> item.JObj? && HasKey(item.members, "wattsType")
    ensures item.JArr? ==> WattsTypeIsAt(item) == Failure(Argument(""))
    ensures !item.JObj? && !item.JArr? ==> WattsTypeIsAt(item) == Failure(InvalidOperation)
    ensures item.JObj? && !HasKey(item.members, "wattsType") ==> WattsTypeIsAt(item) == Failure(ArgumentNull("value"))
    ensures item.JObj? && Get(item.members, "wattsType").Some? &&
            (Get(item.members, "wattsType").value.JObj? || Get(item.members, "wattsType").value.JArr?) ==>
              WattsTypeIsAt(item) == Failure(InvalidCast)
  {
  }

  /** The inner loop, on an "At" entry: when it has "dataItems", that
      array (cast, so anything else throws) has each element stamped with
      "timestamp" and "value"; one Random per entry supplies the draws. */
  function StampAtEntry(ms: seq<Member>, stamps: nat -> int, draws: nat -> int): Result<Json> {
    match Get(ms, "dataItems")
    case None => Success(JObj(ms))
    case Some(JArr(dataItems)) =>
      var stamped :- EachFrom(dataItems, 0, Stamper("value", stamps, draws));
      Success(JObj(Set(ms, "dataItems", JArr(stamped))))
    case Some(_) => Failure(InvalidCast)
  }

  /** One entry of the outer loop. */
  function AppEntry(item: Json, stamps: nat -> int, draws: nat -> int): Result<Json> {
    var isAt :- WattsTypeIsAt(item);
    if isAt then StampAtEntry(item.members, stamps, draws) else Success(item)
  }

  /** The outer loop's body as a step of EachFrom: entry i gets its own
      clock readings and its own Random. */
  function EntryStamper(stamps: nat -> nat -> int, draws: nat -> nat -> int): (Json, nat) -> Result<Json> {
    (item: Json, i: nat) => AppEntry(item, stamps(i), draws(i))
  }

  /** RandomizeData on the parsed object: only a top-level "data" array is
      walked. */
  function RandomizeEntries(ms: seq<Member>, stamps: nat -> nat -> int, draws: nat -> nat -> int): Result<seq<Member>> {
    match Get(ms, "data")
    case Some(JArr(items)) =>
      var out :- EachFrom(items, 0, EntryStamper(stamps, draws));
      Success(Set(ms, "data", JArr(out)))
    case _ => Success(ms)
  }

  /** RandomizeData(jsonMessage): empty text is rejected, the text must be
      a JSON object. */
  function AppRandomized(jsonMessage: string, parse: string -> Option<Json>,
                         stamps: nat -> nat -> int, draws: nat -> nat -> int): Result<seq<Member>> {
    if |jsonMessage| == 0 then Failure(ArgumentNull("jsonMessage"))
    else
      var ms :- ParseObject(jsonMessage, parse);
      RandomizeEntries(ms, stamps, draws)
  }

  /** The outer loop's body on one entry: the watts-type test, then the
      inner foreach over its data items. */
  method RandomizeEntry(item: Json, stamps: nat -> int, draws: nat -> int) returns (r: Result<Json>)
    ensures r == AppEntry(item, stamps, draws)
  {
    var isAt := WattsTypeIsAt(item);
    if isAt.Failure? {
      return Failure(isAt.error);
    }
    if !isAt.value {
      return Success(item);
    }
    var dataItems := Get(item.members, "dataItems");
    if dataItems.None? {
      return Success(item);
    }
    if !dataItems.value.JArr? {
      return Failure(InvalidCast);
    }
    var stamped := StampItems(dataItems.value.items, "value", stamps, draws);
    if stamped.Failure? {
      return Failure(stamped.error);
    }
    return Success(JObj(Set(item.members, "dataItems", JArr(stamped.value))));
  }

  /** The nested foreach, updating the entries and their data items in
      place. */
  method RandomizeData(jsonMessage: string, parse: string -> Option<Json>,
                       stamps: nat -> nat -> int, draws: nat -> nat -> int) returns (r: Result<seq<Member>>)
    ensures r == AppRandomized(jsonMessage, parse, stamps, draws)
  {
    if |jsonMessage| == 0 {
      return Failure(ArgumentNull("jsonMessage"));
    }
    var parsed := ParseObject(jsonMessage, parse);
    if parsed.Failure? {
      return Failure(parsed.error);
    }
    var ms := parsed.value;
    var data := Get(ms, "data");
    if !(data.Some? && data.value.JArr?) {
      return Success(ms);
    }
    var items := data.value.items;
    ghost var step := EntryStamper(stamps, draws);
    var current := items;
    var i := 0;
    EachFromInvariantStart(items, step);
    while i < |current|
      invariant EachFromInvariant(items, current, i, step)
    {
      assert current[i] == current[i..][0] == items[i];
      var entry := RandomizeEntry(current[i], stamps(i), draws(i));
      assert step(items[i], i) == entry;
      if entry.Failure? {
        EachFromInvariantStop(items, current, i, step);
        return Failure(entry.error);
      }
      var out := entry.value;
      EachFromInvariantAdvance(items, current, i, out, step);
      current := current[i := out];
      i := i + 1;
    }
    EachFromInvariantDone(items, current, step);
    return Success(Set(ms, "data", JArr(current)));
  }

  /** An entry is changed only when its watts type is "At" and it has a
      "dataItems" array. */
  lemma AppEntryChangesOnlyAtEntries(item: Json, stamps: nat -> int, draws: nat -> int)
    requires AppEntry(item, stamps, draws).Success?
    ensures AppEntry(item, stamps, draws).value != item ==>
              item.JObj? && Get(item.members, "wattsType") == Some(JStr("At")) &&
              Get(item.members, "dataItems").Some? && Get(item.members, "dataItems").value.JArr?
  {
    WattsTypeCheck(item);
    var isAt := WattsTypeIsAt(item);
    if isAt == Success(true) {
      var d := Get(item.members, "dataItems");
      if d.None? {
        assert AppEntry(item, stamps, draws) == Success(JObj(item.members));
      }
    } else {
      assert AppEntry(item, stamps, draws) == Success(item);
    }
  }

  /** Then only that array changes, keeping its length, and each data
      item is stamped with its own clock reading and draw. */
  lemma AppEntryStampsDataItems(item: Json, stamps: nat -> int, draws: nat -> int)
    requires AppEntry(item, stamps, draws).Success?
    requires item.JObj? && Get(item.members, "wattsType") == Some(JStr("At"))
    requires Get(item.members, "dataItems").Some? && Get(item.members, "dataItems").value.JArr?
    ensures var out := AppEntry(item, stamps, draws).value;
            var before := Get(item.members, "dataItems").value.items;
            out.JObj? && Keys(out.members) == Keys(item.members) &&
            (forall k :: k != "dataItems" ==> Get(out.members, k) == Get(item.members, k)) &&
            Get(out.members, "dataItems").Some? && Get(out.members, "dataItems").value.JArr? &&
            |Get(out.members, "dataItems").value.items| == |before| &&
            forall j :: 0 <= j < |before| ==>
              StampItem(before[j], "value", stamps(j), draws(j)) == Success(Get(out.members, "dataItems").value.items[j])
  {
    var ms := item.members;
    var before := Get(ms, "dataItems").value.items;
    var step := Stamper("value", stamps, draws);
    assert AppEntry(item, stamps, draws) == StampAtEntry(ms, stamps, draws);
    var stamped := EachFrom(before, 0, step).value;
    assert AppEntry(item, stamps, draws).value == JObj(Set(ms, "dataItems", JArr(stamped)));
    StampAllPointwise(before, "value", stamps, draws);
    SetFrame(ms, "dataItems", JArr(stamped));
  }

  /** A successful RandomizeData keeps the top-level keys, and every key
      but "data" keeps its value; a "data" array keeps its length and each
      entry is replaced by the result of its own AppEntry. Without a "data"
      array nothing changes. */
  lemma RandomizeEntriesKeepsShape(ms: seq<Member>, stamps: nat -> nat -> int, draws: nat -> nat -> int)
    requires RandomizeEntries(ms, stamps, draws).Success?
    ensures var out := RandomizeEntries(ms, stamps, draws).value;
            Keys(out) == Keys(ms) &&
            (forall k :: k != "data" ==> Get(out, k) == Get(ms, k))
    ensures !(Get(ms, "data").Some? && Get(ms, "data").value.JArr?) ==> RandomizeEntries(ms, stamps, draws).value == ms
    ensures var d := Get(ms, "data");
            var out := RandomizeEntries(ms, stamps, draws).value;
            d.Some? && d.value.JArr? ==>
              Get(out, "data").Some? && Get(out, "data").value.JArr? &&
              |Get(out, "data").value.items| == |d.value.items| &&
              forall i :: 0 <= i < |d.value.items| ==>
                AppEntry(d.value.items[i], stamps(i), draws(i)) == Success(Get(out, "data").value.items[i])
  {
    var d := Get(ms, "data");
    if d.Some? && d.value.JArr? {
      var items := d.value.items;
      var step := EntryStamper(stamps, draws);
      EachFromLength(items, 0, step);
      var out := EachFrom(items, 0, step).value;
      forall i | 0 <= i < |items| ensures AppEntry(items[i], stamps(i), draws(i)) == Success(out[i]) {
        EachFromAtStart(items, step, i);
        assert step(items[i], i) == AppEntry(items[i], stamps(i), draws(i));
      }
      SetFrame(ms, "data", JArr(out));
    }
  }

  // ---------------------------------------------------------------------
  // The messages the app's loops send
  // ---------------------------------------------------------------------

  /** The telemetry loop's message: the measured-data file's text, which
      must not be empty, randomized and written out. */
  function TelemetryMessage(fileText: string, parse: string -> Option<Json>,
                            stamps: nat -> nat -> int, draws: nat -> nat -> int): (r: Result<Payload>)
    ensures |fileText| == 0 ==> r == Failure(ArgumentNull("messageString"))
    ensures |fileText| > 0 ==>
              (r.Success? <==> AppRandomized(fileText, parse, stamps, draws).Success?) &&
              (r.Success? ==> r.value == Serialized(JObj(AppRandomized(fileText, parse, stamps, draws).value)))
  {
    if |fileText| == 0 then Failure(ArgumentNull("messageString"))
    else
      var ms :- AppRandomized(fileText, parse, stamps, draws);
      Success(Serialized(JObj(ms)))
  }

  /** The error and commissioning loops' message: the file's text as is,
      which must not be empty. */
  function FileMessage(fileText: string): (r: Result<Payload>)
    ensures r.Success? <==> |fileText| > 0
    ensures r.Success? ==> r.value == Text(fileText)
    ensures r.Failure? ==> r.error == ArgumentNull("messageString")
  {
    if |fileText| == 0 then Failure(ArgumentNull("messageString")) else Success(Text(fileText))
  }

  /** An empty file faults the app's loop on its first round, before
      anything is sent. */
  lemma EmptyFileFaultsLoop(c: LoopConfig, obs: seq<Observation>, parse: string -> Option<Json>,
                            stamps: nat -> nat -> int, draws: nat -> nat -> int)
    requires c.host == App && c.kind != Latency && |obs| > 0
    requires obs[0].message == (if c.kind == Telemetry then TelemetryMessage("", parse, stamps, draws) else FileMessage(""))
    ensures Run(c, obs) == LoopRun([], CounterStart(App, c.kind), Faulted(ArgumentNull("messageString")))
  {
  }

  // ---------------------------------------------------------------------
  // Desired "configuration" property
  // ---------------------------------------------------------------------

  /** A required key of the configuration: its absence throws
      ArgumentNullException with the given name. */
  function Required(ms: seq<Member>, key: string, paramName: string): (r: Result<Json>)
    ensures !HasKey(ms, key) ==> r == Failure(ArgumentNull(paramName))
    ensures HasKey(ms, key) ==> r == ScalarValue(Get(ms, key).value)
  {
    match Get(ms, key)
    case None => Failure(ArgumentNull(paramName))
    case Some(v) => ScalarValue(v)
  }

  /** The reported properties ReportConfigurationUpdateAsync sends:
      {"configuration": {"Id_deviceId", "S1", "configurationVersion", "data"}}. */
  function ConfigurationReported(deviceId: Json, sensorId: Json, version: Json, data: Json): (j: Json)
    ensures j.JObj? && Keys(j.members) == ["configuration"]
    ensures var c := Get(j.members, "configuration");
            c.Some? && c.value.JObj? &&
            Keys(c.value.members) == ["Id_deviceId", "S1", "configurationVersion", "data"] &&
            Get(c.value.members, "data") == Some(data)
  {
    var cs := [Member("Id_deviceId", deviceId), Member("S1", sensorId), Member("configurationVersion", version),
               Member("data", data)];
    assert |cs[0].key| == 11 && |cs[1].key| == 2 && |cs[2].key| == 20 && |cs[3].key| == 4;
    FindKeyAt(cs, "data", 3);
    FindKeyAt([Member("configuration", JObj(cs))], "configuration", 0);
    JObj([Member("configuration", JObj(cs))])
  }

  /** The "data" branch of a configuration change: an array is accepted
      and ignored; an object with "wattsTypeValue" reports the watts type
      and an integer (which `Value<int>()` must convert), string or object
      value, and any other value type is ignored; an object without it is
      reported flattened; any other data is ignored. */
  function ConfigurationData(data: Json): (r: Result<Option<Json>>)
    ensures !data.JObj? ==> r == Success(None)
    ensures data.JObj? && !HasKey(data.members, "wattsTypeValue") ==> r == Success(Some(data))
    ensures data.JObj? && HasKey(data.members, "wattsTypeValue") ==>
              var v := Get(data.members, "wattsTypeValue").value;
              var wattsType := ValueOf(data.members, "wattsType");
              (!(v.JInt? || v.JStr? || v.JObj?) ==> r == Success(None)) &&
              ((v.JInt? || v.JStr? || v.JObj?) && wattsType.Failure? ==> r == Failure(wattsType.error)) &&
              (v.JInt? && wattsType.Success? && Int32Value(v).Failure? ==> r == Failure(Int32Value(v).error)) &&
              (r.Success? && r.value.Some? ==>
                 r.value.value == JObj([Member("wattsType", wattsType.value), Member("wattsTypeValue", v)]))
  {
    match data
    case JObj(ms) =>
      (match Get(ms, "wattsTypeValue")
       case None => Success(Some(data))
       case Some(v) =>
         if v.JInt? || v.JStr? || v.JObj? then
           var wattsType :- ValueOf(ms, "wattsType");
           if v.JInt? && Int32Value(v).Failure? then Failure(Int32Value(v).error)
           else Success(Some(JObj([Member("wattsType", wattsType), Member("wattsTypeValue", v)])))
         else Success(None))
    case _ => Success(None)
  }

  /** OnDesiredPropertyChange, "configuration" branch: Id_deviceId, S1,
      configurationVersion and data are required, checked in that order
      (a missing "data" throws with the name "deviceId"); the result is the
      reported properties sent, if any. */
  function DesiredConfiguration(configuration: seq<Member>): (r: Result<Option<Json>>)
    ensures !HasKey(configuration, "Id_deviceId") ==> r == Failure(ArgumentNull("deviceId"))
    ensures HasKey(configuration, "Id_deviceId") && !HasKey(configuration, "S1") &&
            ScalarValue(Get(configuration, "Id_deviceId").value).Success? ==>
              r == Failure(ArgumentNull("sensorId"))
    ensures r.Success? ==>
              HasKey(configuration, "Id_deviceId") && HasKey(configuration, "S1") &&
              HasKey(configuration, "configurationVersion") && HasKey(configuration, "data")
    ensures r.Success? && r.value.Some? ==>
              var data := ConfigurationData(Get(configuration, "data").value);
              data.Success? && data.value.Some? &&
              r.value.value == ConfigurationReported(Get(configuration, "Id_deviceId").value, Get(configuration, "S1").value,
                                                     Get(configuration, "configurationVersion").value, data.value.value)
  {
    var deviceId :- Required(configuration, "Id_deviceId", "deviceId");
    var sensorId :- Required(configuration, "S1", "sensorId");
    var version :- Required(configuration, "configurationVersion", "configurationVersion");
    match Get(configuration, "data")
    case None => Failure(ArgumentNull("deviceId"))
    case Some(data) =>
      var reported :- ConfigurationData(data);
      match reported
      case None => Success(None)
      case Some(d) => Success(Some(ConfigurationReported(deviceId, sensorId, version, d)))
  }

  /** A configuration whose three ids are present plain values and whose
      "data" is present is not rejected by the key checks: only the data
      branch can still throw, and an array or a flattened object never
      does. */
  lemma CompleteConfigurationPassesChecks(configuration: seq<Member>)
    requires ScalarAt(configuration, "Id_deviceId") && ScalarAt(configuration, "S1")
    requires ScalarAt(configuration, "configurationVersion") && HasKey(configuration, "data")
    ensures DesiredConfiguration(configuration) ==
            match ConfigurationData(Get(configuration, "data").value)
            case Failure(e) => Failure(e)
            case Success(None) => Success(None)
            case Success(Some(d)) =>
              Success(Some(ConfigurationReported(Get(configuration, "Id_deviceId").value, Get(configuration, "S1").value,
                                                 Get(configuration, "configurationVersion").value, d)))
  {
  }

  /** The property `k` is present and its value converts to a string. */
  predicate ScalarAt(configuration: seq<Member>, k: string) {
    Get(configuration, k).Some? && ScalarValue(Get(configuration, k).value).Success?
  }

  /** A missing "data" is reported under the name of the device id, and a
      missing configurationVersion under its own, once the keys before it
      are present. */
  lemma MissingKeysNamed(configuration: seq<Member>)
    requires ScalarAt(configuration, "Id_deviceId") && ScalarAt(configuration, "S1")
    ensures !HasKey(configuration, "configurationVersion") ==>
              DesiredConfiguration(configuration) == Failure(ArgumentNull("configurationVersion"))
    ensures HasKey(configuration, "configurationVersion") &&
            ScalarValue(Get(configuration, "configurationVersion").value).Success? &&
            !HasKey(configuration, "data") ==>
              DesiredConfiguration(configuration) == Failure(ArgumentNull("deviceId"))
  {
  }

  // ---------------------------------------------------------------------
  // Bulk upload
  // ---------------------------------------------------------------------

  datatype DataItem = DataItem(timestamp: Int64, propertyName: string, propertyValue: string,
                               propertyUnit: string, propertyDivFactor: int)

  datatype MeasuredData = MeasuredData(deviceId: string, moduleId: Option<string>, timestamp: Int64,
                                       schemaVersion: string, messageType: string, data: seq<DataItem>)

  /** Record i takes draws 12·i to 12·i+11 from the shared Random, in
      evaluation order: for each of its four items a minute jitter, a
      second jitter and the value. Item `k` of record `i` is stamped this
      many seconds after the batch's start date: 3·i minutes plus a jitter
      of 0 or 1 minute, plus 1 to 58 seconds. */
  function ItemOffset(i: nat, k: nat, draws: nat -> int): (s: int)
    ensures 180 * i + 1 <= s <= 180 * i + 118
  {
    var base := 12 * i + 3 * k;
    (i * 3 + Next(draws(base), 0, 2)) * 60 + Next(draws(base + 1), 1, 59)
  }

  /** `rand.Next(lo, hi).ToString()`. */
  function Reading(raw: int, lo: int, hi: int): string
    requires lo <= hi
  {
    IntToString(Next(raw, lo, hi))
  }

  /** A reading is the text of an int in [lo, hi) and reads back as it. */
  lemma ReadingParses(raw: int, lo: int, hi: int)
    requires Int32Min <= lo < hi <= Int32Max
    ensures TryParseInt32(Reading(raw, lo, hi)).Some?
    ensures lo <= TryParseInt32(Reading(raw, lo, hi)).value < hi
  {
    TryParseInt32RoundTrip(Next(raw, lo, hi));
  }

  /** Next(0, 1) can only return 0, so the presence reading is always "0". */
  lemma PresenceIsZero(raw: int)
    ensures TryParseInt32(Reading(raw, 0, 1)) == Some(0)
  {
    ReadingParses(raw, 0, 1);
    var v := TryParseInt32(Reading(raw, 0, 1));
    assert v.Some? && 0 <= v.value < 1;
  }

  function Item(i: nat, k: nat, draws: nat -> int, at: int -> Int64,
                name: string, value: string, unit: string): DataItem {
    DataItem(at(ItemOffset(i, k, draws)), name, value, unit, 0)
  }

  /** Record i of the batch: the four readings, each stamped at its own
      offset within the record's three-minute slot. `temperature` is the
      text of a random double; `at(s)` is the time stamp of the start date
      plus s seconds. */
  function UploadRecord(deviceId: string, i: nat, temperature: string, draws: nat -> int,
                        at: int -> Int64, recordStamp: Int64): (r: MeasuredData)
    ensures |r.data| == 4
  {
    var base := 12 * i;
    MeasuredData(deviceId, None, recordStamp, "v1.0", "data", [
      Item(i, 0, draws, at, "temperature", temperature, "C"),
      Item(i, 1, draws, at, "pressure", Reading(draws(base + 5), 900, 1500), "ba"),
      Item(i, 2, draws, at, "humidity", Reading(draws(base + 8), 0, 100), "%"),
      Item(i, 3, draws, at, "presence", Reading(draws(base + 11), 0, 1), "bool")])
  }

  /** A record belongs to the device, carries the four measurements in a
      fixed order with their units, and stamps each at its own offset. */
  lemma UploadRecordLayout(deviceId: string, i: nat, temperature: string, draws: nat -> int,
                           at: int -> Int64, recordStamp: Int64)
    ensures var r := UploadRecord(deviceId, i, temperature, draws, at, recordStamp);
            r.deviceId == deviceId && r.moduleId == None && r.messageType == "data" && r.schemaVersion == "v1.0" &&
            r.timestamp == recordStamp &&
            r.data[0].propertyName == "temperature" && r.data[0].propertyUnit == "C" &&
            r.data[0].propertyValue == temperature &&
            r.data[1].propertyName == "pressure" && r.data[1].propertyUnit == "ba" &&
            r.data[2].propertyName == "humidity" && r.data[2].propertyUnit == "%" &&
            r.data[3].propertyName == "presence" && r.data[3].propertyUnit == "bool"
    ensures var r := UploadRecord(deviceId, i, temperature, draws, at, recordStamp);
            forall k :: 0 <= k < 4 ==> r.data[k].timestamp == at(ItemOffset(i, k, draws))
  {
    var r := UploadRecord(deviceId, i, temperature, draws, at, recordStamp);
    forall k | 0 <= k < 4 ensures r.data[k].timestamp == at(ItemOffset(i, k, draws)) {
      if k == 0 {
      } else if k == 1 {
      } else if k == 2 {
      } else {
        assert k == 3;
      }
    }
  }

  /** The readings parse back as ints in their ranges: pressure in
      [900, 1500), humidity in [0, 100), and presence is always 0, since
      Next(0, 1) can only return 0. */
  lemma UploadReadingsInRange(deviceId: string, i: nat, temperature: string, draws: nat -> int,
                              at: int -> Int64, recordStamp: Int64)
    ensures var r := UploadRecord(deviceId, i, temperature, draws, at, recordStamp);
            TryParseInt32(r.data[1].propertyValue).Some? && 900 <= TryParseInt32(r.data[1].propertyValue).value < 1500
    ensures var r := UploadRecord(deviceId, i, temperature, draws, at, recordStamp);
            TryParseInt32(r.data[2].propertyValue).Some? && 0 <= TryParseInt32(r.data[2].propertyValue).value < 100
    ensures var r := UploadRecord(deviceId, i, temperature, draws, at, recordStamp);
            TryParseInt32(r.data[3].propertyValue) == Some(0)
  {
    var base := 12 * i;
    var r := UploadRecord(deviceId, i, temperature, draws, at, recordStamp);
    assert r.data[1].propertyValue == Reading(draws(base + 5), 900, 1500);
    assert r.data[2].propertyValue == Reading(draws(base + 8), 0, 100);
    assert r.data[3].propertyValue == Reading(draws(base + 11), 0, 1);
    ReadingParses(draws(base + 5), 900, 1500);
    ReadingParses(draws(base + 8), 0, 100);
    PresenceIsZero(draws(base + 11));
  }

  /** With a clock that does not go backwards, every item of a record is
      stamped no later than every item of a later record. */
  lemma UploadStampsOrdered(deviceId: string, i: nat, j: nat, ti: string, tj: string, draws: nat -> int,
                            at: int -> Int64, si: Int64, sj: Int64)
    requires i < j
    requires forall a: int, b: int :: a <= b ==> at(a) <= at(b)
    ensures var ri := UploadRecord(deviceId, i, ti, draws, at, si);
            var rj := UploadRecord(deviceId, j, tj, draws, at, sj);
            forall k, l :: 0 <= k < 4 && 0 <= l < 4 ==> ri.data[k].timestamp <= rj.data[l].timestamp
  {
    UploadRecordLayout(deviceId, i, ti, draws, at, si);
    UploadRecordLayout(deviceId, j, tj, draws, at, sj);
    forall k, l | 0 <= k < 4 && 0 <= l < 4
      ensures UploadRecord(deviceId, i, ti, draws, at, si).data[k].timestamp <=
              UploadRecord(deviceId, j, tj, draws, at, sj).data[l].timestamp
    {
      var a := ItemOffset(i, k, draws);
      var b := ItemOffset(j, l, draws);
      assert 180 * i + 118 < 180 * j + 1;
      assert at(a) <= at(b);
    }
  }

  /** The while loop that builds the batch: one record per index below
      NumberOfMessagesToUpload (none when it is not positive). */
  method BuildUploadBatch(deviceId: string, count: Int32, temperatures: nat -> string, draws: nat -> int,
                          at: int -> Int64, recordStamps: nat -> Int64) returns (data: seq<MeasuredData>)
    ensures |data| == if count < 0 then 0 else count as int
    ensures forall i :: 0 <= i < |data| ==>
              data[i] == UploadRecord(deviceId, i, temperatures(i), draws, at, recordStamps(i))
  {
    data := [];
    var n := if count < 0 then 0 else count as int;
    var i := 0;
    while i < n
      invariant 0 <= i <= n
      invariant |data| == i
      invariant forall j :: 0 <= j < i ==> data[j] == UploadRecord(deviceId, j, temperatures(j), draws, at, recordStamps(j))
    {
      data := data + [UploadRecord(deviceId, i, temperatures(i), draws, at, recordStamps(i))];
      i := i + 1;
    }
  }
}
