/** `IoTTools`: the connection-string validators run before a client is
    created, and the two message-template transforms, `UpdateIds` (stamp
    the device and module ids) and `RandomizeData` (refresh every data
    item's time stamp and value). JSON text is read by a parser given as a
    parameter; the results are the resulting object trees. */
module IoTTools {
  import opened Outcomes
  import opened Text
  import opened JsonTree
  import opened Settings
  import opened Randomness

  // ---------------------------------------------------------------------
  // Connection-string validation
  // ---------------------------------------------------------------------

  /** CheckDeviceConnectionStringData: throws for the first of these that
      holds, in this order: no connection string, no logger, no HostName
      field, no DeviceId field; passes otherwise. */
  function CheckDeviceConnectionStringData(connectionString: string, hasLogger: bool): (r: Check)
    ensures r == Pass <==>
              |connectionString| > 0 && hasLogger &&
              |HostNameOf(connectionString)| > 0 && |DeviceIdOf(connectionString)| > 0
    ensures |connectionString| == 0 ==> r == Throw(ArgumentNull("connectionString"))
    ensures |connectionString| > 0 && !hasLogger ==> r == Throw(ArgumentNull("logger"))
    ensures |connectionString| > 0 && hasLogger && |HostNameOf(connectionString)| == 0 ==>
              r == Throw(ArgumentNull("hostname"))
    ensures (|connectionString| > 0 && hasLogger && |HostNameOf(connectionString)| > 0 &&
             |DeviceIdOf(connectionString)| == 0) ==> r == Throw(ArgumentNull("DeviceId"))
  {
    if |connectionString| == 0 then Throw(ArgumentNull("connectionString"))
    else if !hasLogger then Throw(ArgumentNull("logger"))
    else if |Field(connectionString, "HostName")| == 0 then Throw(ArgumentNull("hostname"))
    else if |Field(connectionString, "DeviceId")| == 0 then Throw(ArgumentNull("DeviceId"))
    else Pass
  }

  /** CheckModuleConnectionStringData: the device checks, then a ModuleId
      field is required. */
  function CheckModuleConnectionStringData(connectionString: string, hasLogger: bool): (r: Check)
    ensures r == Pass <==>
              CheckDeviceConnectionStringData(connectionString, hasLogger) == Pass &&
              |ModuleIdOf(connectionString)| > 0
    ensures CheckDeviceConnectionStringData(connectionString, hasLogger).Throw? ==>
              r == CheckDeviceConnectionStringData(connectionString, hasLogger)
    ensures (CheckDeviceConnectionStringData(connectionString, hasLogger) == Pass &&
             |ModuleIdOf(connectionString)| == 0) ==> r == Throw(ArgumentNull("moduleId"))
  {
    if |connectionString| == 0 then Throw(ArgumentNull("connectionString"))
    else if !hasLogger then Throw(ArgumentNull("logger"))
    else
      match CheckDeviceConnectionStringData(connectionString, hasLogger)
      case Throw(e) => Throw(e)
      case Pass =>
        if |Field(connectionString, "ModuleId")| == 0 then Throw(ArgumentNull("moduleId")) else Pass
  }

  // ---------------------------------------------------------------------
  // Parsing
  // ---------------------------------------------------------------------

  /** JObject.Parse: the text must parse, and to an object. `parse` stands
      for Newtonsoft's reader (none = malformed text). */
  function ParseObject(text: string, parse: string -> Option<Json>): (r: Result<seq<Member>>)
    ensures r.Success? <==> parse(text).Some? && parse(text).value.JObj?
    ensures r.Success? ==> parse(text) == Some(JObj(r.value))
    ensures r.Failure? ==> r.error == JsonReader
  {
    match parse(text)
    case Some(JObj(ms)) => Success(ms)
    case _ => Failure(JsonReader)
  }

  // ---------------------------------------------------------------------
  // UpdateIds
  // ---------------------------------------------------------------------

  /** The id stamping on the parsed object: "deviceId" is overwritten only
      if present, "moduleId" only if present and a module id is given;
      no property is added, removed or reordered. */
  function UpdateIdsObject(ms: seq<Member>, deviceId: string, moduleId: string): (r: seq<Member>)
    ensures Keys(r) == Keys(ms)
    ensures Get(r, "deviceId") == if HasKey(ms, "deviceId") then Some(JStr(deviceId)) else None
    ensures Get(r, "moduleId") ==
              if |moduleId| > 0 && HasKey(ms, "moduleId") then Some(JStr(moduleId)) else Get(ms, "moduleId")
    ensures forall k :: k != "deviceId" && k != "moduleId" ==> Get(r, k) == Get(ms, k)
  {
    SetFrame(ms, "deviceId", JStr(deviceId));
    var withDevice := if HasKey(ms, "deviceId") then Set(ms, "deviceId", JStr(deviceId)) else ms;
    SetFrame(withDevice, "moduleId", JStr(moduleId));
    if |moduleId| > 0 && HasKey(withDevice, "moduleId") then Set(withDevice, "moduleId", JStr(moduleId))
    else withDevice
  }

  /** Stamping the same ids twice is the same as stamping them once. */
  lemma UpdateIdsIdempotent(ms: seq<Member>, deviceId: string, moduleId: string)
    ensures UpdateIdsObject(UpdateIdsObject(ms, deviceId, moduleId), deviceId, moduleId)
            == UpdateIdsObject(ms, deviceId, moduleId)
  {
    var once := UpdateIdsObject(ms, deviceId, moduleId);
    var withDevice := if HasKey(once, "deviceId") then Set(once, "deviceId", JStr(deviceId)) else once;
    if HasKey(once, "deviceId") {
      SetExisting(once, "deviceId");
    }
    assert withDevice == once;
    if |moduleId| > 0 && HasKey(once, "moduleId") {
      SetExisting(once, "moduleId");
    }
  }

  /** UpdateIds(jsonMessage, deviceId, moduleId): rejects an empty message,
      then an empty device id, then text that is not a JSON object; stamps
      the ids otherwise. */
  function UpdateIds(jsonMessage: string, deviceId: string, moduleId: string,
                     parse: string -> Option<Json>): (r: Result<seq<Member>>)
    ensures |jsonMessage| == 0 ==> r == Failure(ArgumentNull("jsonMessage"))
    ensures |jsonMessage| > 0 && |deviceId| == 0 ==> r == Failure(ArgumentNull("deviceId"))
    ensures |jsonMessage| > 0 && |deviceId| > 0 ==>
              match ParseObject(jsonMessage, parse)
              case Failure(e) => r == Failure(e)
              case Success(ms) => r == Success(UpdateIdsObject(ms, deviceId, moduleId))
  {
    if |jsonMessage| == 0 then Failure(ArgumentNull("jsonMessage"))
    else if |deviceId| == 0 then Failure(ArgumentNull("deviceId"))
    else
      var ms :- ParseObject(jsonMessage, parse);
      Success(UpdateIdsObject(ms, deviceId, moduleId))
  }

  // ---------------------------------------------------------------------
  // RandomizeData
  // ---------------------------------------------------------------------

  /** The lower and upper (exclusive) bounds of a randomized property value. */
  const ValueLow: int := 150
  const ValueHigh: int := 300

  /** The two assignments made to one element of "data":
      `item["timestamp"] = now` and `item["propertyValue"] = r.Next(150, 300)`
      as a string. Only an object accepts a property assignment: an array
      throws ArgumentException, any other token InvalidOperationException. */
  function StampItem(item: Json, valueKey: string, stamp: int, draw: int): (r: Result<Json>)
    ensures r.Success? <==> item.JObj?
    ensures item.JArr? ==> r == Failure(Argument(""))
    ensures !item.JObj? && !item.JArr? ==> r == Failure(InvalidOperation)
    ensures r.Success? ==> r.value.JObj?
  {
    match item
    case JObj(ms) =>
      var value := Next(draw, ValueLow, ValueHigh);
      Success(JObj(Set(Set(ms, "timestamp", JInt(stamp)), valueKey, JStr(IntToString(value)))))
    case JArr(_) => Failure(Argument(""))
    case _ => Failure(InvalidOperation)
  }

  /** A stamped element has the two properties set and no other changed. */
  lemma StampItemSetsTwoProperties(item: Json, valueKey: string, stamp: int, draw: int)
    requires item.JObj? && valueKey != "timestamp"
    ensures StampedAs(item.members, StampItem(item, valueKey, stamp, draw).value.members, valueKey, stamp, draw)
  {
    var withStamp := Set(item.members, "timestamp", JInt(stamp));
    SetFrame(item.members, "timestamp", JInt(stamp));
    SetFrame(withStamp, valueKey, JStr(IntToString(Next(draw, ValueLow, ValueHigh))));
  }

  /** `after` is `before` with "timestamp" set to `stamp` and
      "propertyValue" set to the decimal string of an int in [150, 300)
      (the one `draw` selects); every other property is unchanged, and
      the two are appended when absent. */
  ghost predicate StampedAs(before: seq<Member>, after: seq<Member>, valueKey: string, stamp: int, draw: int) {
    var value := Next(draw, ValueLow, ValueHigh);
    ValueLow <= value < ValueHigh &&
    Get(after, "timestamp") == Some(JInt(stamp)) &&
    Get(after, valueKey) == Some(JStr(IntToString(value))) &&
    (forall k :: k != "timestamp" && k != valueKey ==> Get(after, k) == Get(before, k)) &&
    forall k :: k in Keys(before) ==> k in Keys(after)
  }

  /** The body of the `foreach` over "data": element i is stamped with
      the i-th clock reading and the i-th draw of the generator. */
  function Stamper(valueKey: string, stamps: nat -> int, draws: nat -> int): (Json, nat) -> Result<Json> {
    (item: Json, i: nat) => StampItem(item, valueKey, stamps(i), draws(i))
  }

  /** RandomizeData on the parsed object: only a top-level "data" array is
      touched, and it is replaced in place by its stamped elements. */
  function RandomizeObject(ms: seq<Member>, stamps: nat -> int, draws: nat -> int): Result<seq<Member>> {
    match Get(ms, "data")
    case Some(JArr(items)) =>
      var stamped :- EachFrom(items, 0, Stamper("propertyValue", stamps, draws));
      Success(Set(ms, "data", JArr(stamped)))
    case _ => Success(ms)
  }

  /** The specification of RandomizeData: reject an empty message, parse
      it to an object, randomize its data items. */
  function Randomized(jsonMessage: string, parse: string -> Option<Json>,
                      stamps: nat -> int, draws: nat -> int): Result<seq<Member>> {
    if |jsonMessage| == 0 then Failure(ArgumentNull("jsonMessage"))
    else
      var ms :- ParseObject(jsonMessage, parse);
      RandomizeObject(ms, stamps, draws)
  }

  /** The loop over "data" completes exactly when every element is an
      object. */
  lemma StampAllSucceeds(items: seq<Json>, stamps: nat -> int, draws: nat -> int)
    ensures EachFrom(items, 0, Stamper("propertyValue", stamps, draws)).Success? <==>
            forall i :: 0 <= i < |items| ==> items[i].JObj?
  {
    StamperSucceeds("propertyValue", stamps, draws);
    EachFromSucceedsWhen(items, 0, Stamper("propertyValue", stamps, draws), IsObject);
  }

  predicate IsObject(j: Json) { j.JObj? }

  /** The loop body completes exactly on an object. */
  lemma StamperSucceeds(valueKey: string, stamps: nat -> int, draws: nat -> int)
    ensures forall x, j :: Stamper(valueKey, stamps, draws)(x, j).Success? == IsObject(x)
  {
    forall x, j: nat ensures Stamper(valueKey, stamps, draws)(x, j).Success? == IsObject(x) {
      assert Stamper(valueKey, stamps, draws)(x, j) == StampItem(x, valueKey, stamps(j), draws(j));
    }
  }

  /** The loop over "data" throws the exception of the first element that
      is not an object. */
  lemma StampAllFirstFailure(items: seq<Json>, stamps: nat -> int, draws: nat -> int, f: nat)
    requires f < |items| && !items[f].JObj?
    requires forall i :: 0 <= i < f ==> items[i].JObj?
    ensures EachFrom(items, 0, Stamper("propertyValue", stamps, draws)) == Failure(StampItem(items[f], "propertyValue", stamps(f), draws(f)).error)
  {
    var step := Stamper("propertyValue", stamps, draws);
    forall i | 0 <= i < f ensures step(items[i], 0 + i).Success? {
      assert step(items[i], 0 + i) == StampItem(items[i], "propertyValue", stamps(i), draws(i));
    }
    assert step(items[f], 0 + f) == StampItem(items[f], "propertyValue", stamps(f), draws(f));
    EachFromFailure(items, 0, step, f);
  }

  /** With a "data" array, RandomizeData fails exactly when its loop does,
      with the loop's exception. */
  lemma RandomizeObjectIsLoop(ms: seq<Member>, stamps: nat -> int, draws: nat -> int)
    requires Get(ms, "data").Some? && Get(ms, "data").value.JArr?
    ensures var loop := EachFrom(Get(ms, "data").value.items, 0, Stamper("propertyValue", stamps, draws));
            RandomizeObject(ms, stamps, draws).Success? == loop.Success? &&
            (loop.Failure? ==> RandomizeObject(ms, stamps, draws) == Failure(loop.error))
  {
  }

  /** A "data" array whose elements are all objects is randomized without
      error. */
  lemma RandomizeObjectSucceeds(ms: seq<Member>, stamps: nat -> int, draws: nat -> int)
    requires Get(ms, "data").Some? && Get(ms, "data").value.JArr?
    ensures var items := Get(ms, "data").value.items;
            RandomizeObject(ms, stamps, draws).Success? <==> forall i :: 0 <= i < |items| ==> items[i].JObj?
  {
    RandomizeObjectIsLoop(ms, stamps, draws);
    StampAllSucceeds(Get(ms, "data").value.items, stamps, draws);
  }

  /** The first element of "data" that is not an object makes the call
      throw that element's exception. */
  lemma RandomizeObjectFails(ms: seq<Member>, stamps: nat -> int, draws: nat -> int, f: nat)
    requires Get(ms, "data").Some? && Get(ms, "data").value.JArr?
    requires var items := Get(ms, "data").value.items;
             f < |items| && !items[f].JObj? && forall i :: 0 <= i < f ==> items[i].JObj?
    ensures var items := Get(ms, "data").value.items;
            RandomizeObject(ms, stamps, draws) == Failure(StampItem(items[f], "propertyValue", stamps(f), draws(f)).error)
  {
    RandomizeObjectIsLoop(ms, stamps, draws);
    StampAllFirstFailure(Get(ms, "data").value.items, stamps, draws, f);
  }

  /** What RandomizeData leaves alone: without a "data" array the object is
      unchanged; otherwise every top-level property but "data" keeps its
      value, the property order is kept, and "data" keeps its length with
      each element stamped by its own clock reading and draw. */
  lemma RandomizeObjectKeepsShape(ms: seq<Member>, stamps: nat -> int, draws: nat -> int)
    ensures !(Get(ms, "data").Some? && Get(ms, "data").value.JArr?) ==>
              RandomizeObject(ms, stamps, draws) == Success(ms)
    ensures RandomizeObject(ms, stamps, draws).Success? ==>
              var out := RandomizeObject(ms, stamps, draws).value;
              Keys(out) == Keys(ms) &&
              forall k :: k != "data" ==> Get(out, k) == Get(ms, k)
    ensures RandomizeObject(ms, stamps, draws).Success? && Get(ms, "data").Some? && Get(ms, "data").value.JArr? ==>
              var items := Get(ms, "data").value.items;
              var out := RandomizeObject(ms, stamps, draws).value;
              Get(out, "data").Some? && Get(out, "data").value.JArr? &&
              |Get(out, "data").value.items| == |items| &&
              forall i :: 0 <= i < |items| ==>
                StampItem(items[i], "propertyValue", stamps(i), draws(i)) == Success(Get(out, "data").value.items[i])
  {
    if Get(ms, "data").Some? && Get(ms, "data").value.JArr? {
      var items := Get(ms, "data").value.items;
      var loop := EachFrom(items, 0, Stamper("propertyValue", stamps, draws));
      if loop.Success? {
        assert RandomizeObject(ms, stamps, draws) == Success(Set(ms, "data", JArr(loop.value)));
        SetFrame(ms, "data", JArr(loop.value));
        StampAllPointwise(items, "propertyValue", stamps, draws);
      }
    }
  }

  /** A completed stamping loop replaces each element by its own stamped
      version. */
  lemma StampAllPointwise(items: seq<Json>, valueKey: string, stamps: nat -> int, draws: nat -> int)
    requires EachFrom(items, 0, Stamper(valueKey, stamps, draws)).Success?
    ensures var out := EachFrom(items, 0, Stamper(valueKey, stamps, draws)).value;
            |out| == |items| &&
            forall i :: 0 <= i < |items| ==> StampItem(items[i], valueKey, stamps(i), draws(i)) == Success(out[i])
  {
    EachFromLength(items, 0, Stamper(valueKey, stamps, draws));
    forall i | 0 <= i < |items|
      ensures StampItem(items[i], valueKey, stamps(i), draws(i)) ==
              Success(EachFrom(items, 0, Stamper(valueKey, stamps, draws)).value[i])
    {
      StampAllAt(items, valueKey, stamps, draws, i);
    }
  }

  /** Element i of a completed stamping loop is element i stamped. */
  lemma StampAllAt(items: seq<Json>, valueKey: string, stamps: nat -> int, draws: nat -> int, i: nat)
    requires EachFrom(items, 0, Stamper(valueKey, stamps, draws)).Success? && i < |items|
    ensures i < |EachFrom(items, 0, Stamper(valueKey, stamps, draws)).value|
    ensures StampItem(items[i], valueKey, stamps(i), draws(i)) ==
            Success(EachFrom(items, 0, Stamper(valueKey, stamps, draws)).value[i])
  {
    var step := Stamper(valueKey, stamps, draws);
    EachFromAtStart(items, step, i);
    assert step(items[i], i) == StampItem(items[i], valueKey, stamps(i), draws(i));
  }

  /** The clock and the generator decide the stamped values only: whether
      RandomizeData succeeds, and which properties the result has, do not
      depend on them. */
  lemma RandomizeShapeIndependentOfClock(ms: seq<Member>, stamps1: nat -> int, draws1: nat -> int,
                                         stamps2: nat -> int, draws2: nat -> int)
    ensures RandomizeObject(ms, stamps1, draws1).Success? == RandomizeObject(ms, stamps2, draws2).Success?
    ensures RandomizeObject(ms, stamps1, draws1).Success? ==>
              Keys(RandomizeObject(ms, stamps1, draws1).value) == Keys(RandomizeObject(ms, stamps2, draws2).value)
  {
    RandomizeObjectKeepsShape(ms, stamps1, draws1);
    RandomizeObjectKeepsShape(ms, stamps2, draws2);
    if Get(ms, "data").Some? && Get(ms, "data").value.JArr? {
      RandomizeObjectSucceeds(ms, stamps1, draws1);
      RandomizeObjectSucceeds(ms, stamps2, draws2);
    }
  }

  /** The `foreach` of RandomizeData over the elements of "data", each
      element reassigned in turn. */
  method StampItems(items: seq<Json>, valueKey: string, stamps: nat -> int, draws: nat -> int)
    returns (r: Result<seq<Json>>)
    ensures r == EachFrom(items, 0, Stamper(valueKey, stamps, draws))
  {
    ghost var step := Stamper(valueKey, stamps, draws);
    var current := items;
    var i := 0;
    EachFromInvariantStart(items, step);
    while i < |current|
      invariant EachFromInvariant(items, current, i, step)
    {
      var stamped := StampItem(current[i], valueKey, stamps(i), draws(i));
      assert current[i] == current[i..][0] == items[i];
      assert step(items[i], i) == stamped;
      if stamped.Failure? {
        EachFromInvariantStop(items, current, i, step);
        return Failure(stamped.error);
      }
      EachFromInvariantAdvance(items, current, i, stamped.value, step);
      current := current[i := stamped.value];
      i := i + 1;
    }
    EachFromInvariantDone(items, current, step);
    return Success(current);
  }

  /** RandomizeData(jsonMessage): the guard, the parse, and the loop over a
      top-level "data" array. */
  method RandomizeData(jsonMessage: string, parse: string -> Option<Json>,
                       stamps: nat -> int, draws: nat -> int) returns (r: Result<seq<Member>>)
    ensures r == Randomized(jsonMessage, parse, stamps, draws)
  {
    if |jsonMessage| == 0 {
      return Failure(ArgumentNull("jsonMessage"));
    }
    var parsed := ParseObject(jsonMessage, parse);
    if parsed.Failure? {
      return Failure(parsed.error);
    }
    var ms := parsed.value;
    var data := Get(ms, "data");
    if data.Some? && data.value.JArr? {
      var stamped := StampItems(data.value.items, "propertyValue", stamps, draws);
      if stamped.Failure? {
        return Failure(stamped.error);
      }
      ms := Set(ms, "data", JArr(stamped.value));
    }
    return Success(ms);
  }
}
