/** The direct-method surface shared by the three simulated entities (the
    device and module services of the first simulator, and the simulation
    app of the second): which handler a method name reaches, and what each
    handler answers, which of the two runtime fields (`_telemetryInterval`
    and `_stopProcessing`) it changes, and which background task it starts
    without awaiting it. The SDK transport around the handlers, and the
    background tasks themselves, are not part of this module. */
module DirectMethods {
  import opened Outcomes
  import opened Text
  import opened JsonTree

  /** The three near-duplicate classes. */
  datatype Host = Device | Module | App

  /** A direct-method call: its name and its payload, decoded from UTF-8
      (none when the SDK hands over a null byte array). */
  datatype MethodRequest = MethodRequest(name: string, data: Option<string>)

  /** A body is either text built by string concatenation or an object
      written out by JsonConvert.SerializeObject. */
  datatype Payload = Text(text: string) | Serialized(tree: Json)

  datatype MethodResponse = MethodResponse(status: int, body: Payload)

  /** The handler methods a name can be bound to. */
  datatype Handler =
    | SetTelemetryInterval
    | LatencyTestCallback
    | SendLatencyTest
    | Reboot
    | StartOrStop
    | ReadTwins
    | GenericJToken
    | Generic
    | DefaultHandler

  /** The two runtime fields every entity keeps. */
  datatype Fields = Fields(telemetryInterval: Int32, stopProcessing: bool)

  /** One configuration report the app's StartOrStop launches: the sensor
      id, the configuration version and one item's watts type, each as
      the token `Value<string>()` converted, and the item's value as
      `Value<int>()` converted it. */
  datatype ConfigurationReport = ConfigurationReport(sensorId: Json, configurationVersion: Json,
                                                     wattsType: Json, wattsTypeValue: IntValue)

  /** A task a handler starts and does not await. */
  datatype Launch =
    | LatencyProbe                 // a one-shot latency message (interval 0)
    | RebootSequence               // the rest of RebootOrchestration
    | TwinRead                     // ReadTwins()
    | ConfigurationReports(reports: seq<ConfigurationReport>)

  /** What one call of a handler does: the response, or the exception that
      escapes to the SDK; the fields afterwards; the tasks started. */
  datatype Handled = Handled(response: Result<MethodResponse>, fields: Fields, launched: seq<Launch>)

  // ---------------------------------------------------------------------
  // Registration
  // ---------------------------------------------------------------------

  /** The names RegisterC2DDirectMethodsHandlersAsync binds with
      SetMethodHandlerAsync. The module registers no latency handler. */
  function RegisteredNames(host: Host): set<string> {
    match host
    case Module => {"SetTelemetryInterval", "Reboot", "OnOff", "ReadTwins", "GenericJToken", "Generic"}
    case _ => {"SetTelemetryInterval", "LatencyTestCallback", "SendLatencyTest", "Reboot", "OnOff",
               "ReadTwins", "GenericJToken", "Generic"}
  }

  /** Whether SetMethodDefaultHandlerAsync is called: the app never does. */
  predicate HasDefaultHandler(host: Host) {
    host != App
  }

  /** The handler a call reaches: the one bound to its name, else the
      default handler where there is one, else none (the SDK answers on
      its own). The app binds "SendLatencyTest" to LatencyTestCallback. */
  function Lookup(host: Host, name: string): (r: Option<Handler>)
    ensures name in RegisteredNames(host) ==> r.Some? && r.value != DefaultHandler
    ensures name !in RegisteredNames(host) ==> r == (if HasDefaultHandler(host) then Some(DefaultHandler) else None)
  {
    if name !in RegisteredNames(host) then
      (if HasDefaultHandler(host) then Some(DefaultHandler) else None)
    else if name == "SetTelemetryInterval" then Some(SetTelemetryInterval)
    else if name == "LatencyTestCallback" then Some(LatencyTestCallback)
    else if name == "SendLatencyTest" then (if host == App then Some(LatencyTestCallback) else Some(SendLatencyTest))
    else if name == "Reboot" then Some(Reboot)
    else if name == "OnOff" then Some(StartOrStop)
    else if name == "ReadTwins" then Some(ReadTwins)
    else if name == "GenericJToken" then Some(GenericJToken)
    else Some(Generic)
  }

  /** The handlers the latency names reach: the device binds each to its
      own handler, the app binds both to the callback, and the module
      registers neither, so both fall to its default handler. */
  lemma LatencyBindings()
    ensures Lookup(Device, "LatencyTestCallback") == Some(LatencyTestCallback)
    ensures Lookup(Device, "SendLatencyTest") == Some(SendLatencyTest)
    ensures Lookup(App, "LatencyTestCallback") == Some(LatencyTestCallback)
    ensures Lookup(App, "SendLatencyTest") == Some(LatencyTestCallback)
    ensures Lookup(Module, "LatencyTestCallback") == Some(DefaultHandler)
    ensures Lookup(Module, "SendLatencyTest") == Some(DefaultHandler)
  {
  }

  // ---------------------------------------------------------------------
  // Response texts
  // ---------------------------------------------------------------------

  /** {"result":"Executed direct method: <name>"} */
  function ExecutedText(name: string): string {
    "{\"result\":\"Executed direct method: " + name + "\"}"
  }

  const InvalidParameterText: string := "{\"result\":\"Invalid parameter\"}"

  /** {"result":"Executed direct method: <name>","latency":<latency>} */
  function LatencyText(name: string, latency: int): string {
    "{\"result\":\"Executed direct method: " + name + "\",\"latency\":" + IntToString(latency) + "}"
  }

  const RebootReceivedText: string := "'Reboot command has been received and planified.'"
  const StartOrStopReceivedText: string := "'StartOrStop command has been received.'"

  /** The payload as text: Encoding.UTF8.GetString throws on a null array. */
  function DecodeData(request: MethodRequest): (r: Result<string>)
    ensures r.Success? <==> request.data.Some?
    ensures r.Success? ==> r.value == request.data.value
    ensures r.Failure? ==> r.error == ArgumentNull("bytes")
  {
    match request.data
    case Some(text) => Success(text)
    case None => Failure(ArgumentNull("bytes"))
  }

  // ---------------------------------------------------------------------
  // Handlers
  // ---------------------------------------------------------------------

  /** SetTelemetryInterval: Int32.TryParse writes its out target, the
      interval field, whether or not it succeeds (0 on failure). A failed
      parse answers "Invalid parameter" with status 200 on the device and
      400 on the module and the app. */
  function SetInterval(host: Host, fields: Fields, request: MethodRequest): (h: Handled)
    ensures h.launched == [] && h.fields.stopProcessing == fields.stopProcessing
    ensures request.data.None? ==> h.response == Failure(ArgumentNull("bytes")) && h.fields == fields
    ensures request.data.Some? ==>
              var parsed := TryParseInt32(request.data.value);
              h.fields.telemetryInterval as int == OutValue(parsed) &&
              h.response == Success(
                if parsed.Some? then MethodResponse(200, Text(ExecutedText(request.name)))
                else MethodResponse(if host == Device then 200 else 400, Text(InvalidParameterText)))
  {
    match request.data
    case None => Handled(Failure(ArgumentNull("bytes")), fields, [])
    case Some(text) =>
      match TryParseInt32(text)
      case Some(v) =>
        Handled(Success(MethodResponse(200, Text(ExecutedText(request.name)))), fields.(telemetryInterval := v), [])
      case None =>
        Handled(Success(MethodResponse(if host == Device then 200 else 400, Text(InvalidParameterText))),
                fields.(telemetryInterval := 0), [])
  }

  /** The latency a callback reports: its own time stamp minus the one in
      the payload, in unchecked long arithmetic; a payload that does not
      parse counts as 0. */
  function Latency(payload: string, callbackTimestamp: Int64): (r: Int64)
    ensures TryParseInt64(payload).None? ==> r == callbackTimestamp
    ensures TryParseInt64(payload).Some? && Int64Min <= callbackTimestamp - TryParseInt64(payload).value <= Int64Max ==>
              r == callbackTimestamp - TryParseInt64(payload).value
  {
    Wrap64(callbackTimestamp - OutValue(TryParseInt64(payload)))
  }

  /** LatencyTestCallback: always 200 with the latency, once the payload
      decodes. */
  function LatencyCallback(request: MethodRequest, callbackTimestamp: Int64): (r: Result<MethodResponse>)
    ensures r.Success? <==> request.data.Some?
    ensures r.Success? ==> r.value == MethodResponse(200, Text(LatencyText(request.name, Latency(request.data.value, callbackTimestamp))))
  {
    var text :- DecodeData(request);
    Success(MethodResponse(200, Text(LatencyText(request.name, Latency(text, callbackTimestamp)))))
  }

  /** Generic and GenericJToken: 200 once the payload decodes. The
      "Invalid parameter" branch of GenericJToken is never taken, since
      JToken.FromObject of a string is never null. */
  function Acknowledge(request: MethodRequest): (r: Result<MethodResponse>)
    ensures r.Success? <==> request.data.Some?
    ensures r.Success? ==> r.value == MethodResponse(200, Text(ExecutedText(request.name)))
  {
    var _ :- DecodeData(request);
    Success(MethodResponse(200, Text(ExecutedText(request.name))))
  }

  /** The default handler's body: {result, payload}, the payload being the
      request's JSON text or "". */
  function DefaultBody(request: MethodRequest): (j: Json)
    ensures j.JObj? && Keys(j.members) == ["result", "payload"]
    ensures Get(j.members, "payload") == Some(JStr(if request.data.Some? then request.data.value else ""))
  {
    var message := "Request direct method: " + request.name + " but no specifif direct method handler.";
    JObj([Member("result", JStr(message)), Member("payload", JStr(if request.data.Some? then request.data.value else ""))])
  }

  /** JsonConvert.DeserializeObject<JObject>: an object, or none for empty
      text or the JSON null literal. Text that is not JSON throws a reader
      exception; JSON of another type (an array, a number, a string)
      throws a serialization exception, since it is not a JObject. */
  function DeserializeJObject(text: string, parse: string -> Option<Json>): (r: Result<Option<seq<Member>>>)
    ensures |text| == 0 ==> r == Success(None)
    ensures |text| > 0 && parse(text).Some? && parse(text).value.JObj? ==> r == Success(Some(parse(text).value.members))
    ensures |text| > 0 && parse(text) == Some(JNull) ==> r == Success(None)
    ensures |text| > 0 && parse(text).None? ==> r == Failure(JsonReader)
    ensures |text| > 0 && parse(text).Some? && !parse(text).value.JObj? && !parse(text).value.JNull? ==>
              r == Failure(JsonSerialization)
  {
    if |text| == 0 then Success(None)
    else
      match parse(text)
      case None => Failure(JsonReader)
      case Some(JObj(ms)) => Success(Some(ms))
      case Some(JNull) => Success(None)
      case Some(_) => Failure(JsonSerialization)
  }

  /** The report one item of the app's "data" array launches, or the
      exception raised on the way: the `foreach (JObject item ...)` cast,
      then the arguments in order, `item["wattsType"].Value<string>()` and
      `item["wattsTypeValue"].Value<int>()`. */
  function ItemReport(item: Json, sensorId: Json, version: Json): (r: Result<ConfigurationReport>)
    ensures !item.JObj? ==> r == Failure(InvalidCast)
    ensures item.JObj? && ValueOf(item.members, "wattsType").Failure? ==>
              r == Failure(ValueOf(item.members, "wattsType").error)
    ensures item.JObj? && ValueOf(item.members, "wattsType").Success? ==>
              var value := IntValueOf(item.members, "wattsTypeValue");
              (value.Failure? ==> r == Failure(value.error)) &&
              (value.Success? ==> r == Success(ConfigurationReport(sensorId, version,
                                                                   Get(item.members, "wattsType").value, value.value)))
  {
    match item
    case JObj(ms) =>
      var wattsType :- ValueOf(ms, "wattsType");
      var value :- IntValueOf(ms, "wattsTypeValue");
      Success(ConfigurationReport(sensorId, version, wattsType, value))
    case _ => Failure(InvalidCast)
  }

  /** The app's StartOrStop loop over "data": one report per item, in
      order; the loop stops at the first item that throws, and the reports
      of the items before it have been launched. */
  function ConfigurationItems(items: seq<Json>, sensorId: Json, version: Json): (r: (seq<ConfigurationReport>, Check))
    ensures |r.0| <= |items|
    ensures forall i :: 0 <= i < |r.0| ==> ItemReport(items[i], sensorId, version) == Success(r.0[i])
    ensures r.1 == Pass ==> |r.0| == |items|
    ensures r.1.Throw? ==> |r.0| < |items| && ItemReport(items[|r.0|], sensorId, version) == Failure(r.1.error)
    decreases |items|
  {
    if |items| == 0 then ([], Pass)
    else
      match ItemReport(items[0], sensorId, version)
      case Failure(e) => ([], Throw(e))
      case Success(report) =>
        var rest := ConfigurationItems(items[1..], sensorId, version);
        assert forall i :: 0 <= i < |rest.0| ==> items[1..][i] == items[i + 1];
        ([report] + rest.0, rest.1)
  }

  /** The tasks the app's loop has launched: nothing, or one batch of
      reports. */
  function ReportsLaunched(reports: seq<ConfigurationReport>): seq<Launch> {
    if |reports| == 0 then [] else [ConfigurationReports(reports)]
  }

  /** StartOrStop ("OnOff"). All three reject a null payload and text that
      is not a JSON object (or null). The device echoes the payload. The
      module casts "data" to an array. The app reads "S1" and
      "configurationVersion" as strings and walks the "data" array,
      launching one report per item. */
  function StartOrStopHandled(host: Host, fields: Fields, request: MethodRequest,
                              parse: string -> Option<Json>): (h: Handled)
    ensures h.fields == fields
    ensures request.data.None? ==> h.response == Failure(ArgumentNull("methodRequest.Data")) && h.launched == []
    ensures request.data.Some? && DeserializeJObject(request.data.value, parse).Failure? ==>
              h.response == Failure(DeserializeJObject(request.data.value, parse).error) && h.launched == []
    ensures h.response.Success? ==>
              request.data.Some? && DeserializeJObject(request.data.value, parse).Success? &&
              h.response.value.status == 200
    ensures host == Device && request.data.Some? ==>
              (h.response.Success? <==> DeserializeJObject(request.data.value, parse).Success?)
    ensures host != App ==> h.launched == []
    // The module: a null object throws, a "data" that is not an array is
    // an invalid cast, and anything else is acknowledged.
    ensures host == Module && request.data.Some? && DeserializeJObject(request.data.value, parse).Success? ==>
              match DeserializeJObject(request.data.value, parse).value
              case None => h.response == Failure(NullReference)
              case Some(ms) =>
                if Get(ms, "data").Some? && !Get(ms, "data").value.JArr? then h.response == Failure(InvalidCast)
                else h.response == Success(MethodResponse(200, Text(StartOrStopReceivedText)))
    // The app: a null object throws, then "S1", then
    // "configurationVersion", then "data" must be an array.
    ensures host == App && request.data.Some? && DeserializeJObject(request.data.value, parse).Success? ==>
              match DeserializeJObject(request.data.value, parse).value
              case None => h == Handled(Failure(NullReference), fields, [])
              case Some(ms) =>
                if ValueOf(ms, "S1").Failure? then h == Handled(Failure(ValueOf(ms, "S1").error), fields, [])
                else if ValueOf(ms, "configurationVersion").Failure? then
                  h == Handled(Failure(ValueOf(ms, "configurationVersion").error), fields, [])
                else if Get(ms, "data").None? then h == Handled(Failure(NullReference), fields, [])
                else if !Get(ms, "data").value.JArr? then h == Handled(Failure(InvalidCast), fields, [])
                else
                  var (reports, check) := ConfigurationItems(Get(ms, "data").value.items,
                                                             Get(ms, "S1").value, Get(ms, "configurationVersion").value);
                  h.launched == ReportsLaunched(reports) &&
                  h.response == (if check == Pass then Success(MethodResponse(200, Text(StartOrStopReceivedText)))
                                 else Failure(check.error))
  {
    match request.data
    case None => Handled(Failure(ArgumentNull("methodRequest.Data")), fields, [])
    case Some(text) =>
      match DeserializeJObject(text, parse)
      case Failure(e) => Handled(Failure(e), fields, [])
      case Success(jData) =>
        match host
        case Device =>
          var body := JObj([Member("result", JStr("Executed direct method:" + request.name + ".")),
                            Member("payload", JStr(text))]);
          Handled(Success(MethodResponse(200, Serialized(body))), fields, [])
        case Module =>
          (match jData
           case None => Handled(Failure(NullReference), fields, [])
           case Some(ms) =>
             match Get(ms, "data")
             case Some(JArr(_)) => Handled(Success(MethodResponse(200, Text(StartOrStopReceivedText))), fields, [])
             case None => Handled(Success(MethodResponse(200, Text(StartOrStopReceivedText))), fields, [])
             case Some(_) => Handled(Failure(InvalidCast), fields, []))
        case App =>
          match jData
          case None => Handled(Failure(NullReference), fields, [])
          case Some(ms) =>
            match ValueOf(ms, "S1")
            case Failure(e) => Handled(Failure(e), fields, [])
            case Success(sensorId) =>
              match ValueOf(ms, "configurationVersion")
              case Failure(e) => Handled(Failure(e), fields, [])
              case Success(version) =>
                match Get(ms, "data")
                case None => Handled(Failure(NullReference), fields, [])
                case Some(JArr(items)) =>
                  var (reports, check) := ConfigurationItems(items, sensorId, version);
                  (match check
                   case Pass => Handled(Success(MethodResponse(200, Text(StartOrStopReceivedText))), fields,
                                        ReportsLaunched(reports))
                   case Throw(e) => Handled(Failure(e), fields, ReportsLaunched(reports)))
                case Some(_) => Handled(Failure(InvalidCast), fields, [])
  }

  /** One call of a handler bound on `host`. */
  function Handle(host: Host, handler: Handler, fields: Fields, request: MethodRequest,
                  callbackTimestamp: Int64, parse: string -> Option<Json>): Handled
  {
    match handler
    case SetTelemetryInterval => SetInterval(host, fields, request)
    case LatencyTestCallback => Handled(LatencyCallback(request, callbackTimestamp), fields, [])
    case SendLatencyTest =>
      Handled(Success(MethodResponse(200, Text(ExecutedText(request.name)))), fields, [LatencyProbe])
    case Reboot =>
      var body := if host == Device then ExecutedText(request.name) else RebootReceivedText;
      Handled(Success(MethodResponse(200, Text(body))), fields.(stopProcessing := true), [RebootSequence])
    case StartOrStop => StartOrStopHandled(host, fields, request, parse)
    case ReadTwins =>
      var response := if host == App then MethodResponse(400, Text("Twins read"))
                      else MethodResponse(200, Text(ExecutedText(request.name)));
      Handled(Success(response), fields, [TwinRead])
    case GenericJToken => Handled(Acknowledge(request), fields, [])
    case Generic => Handled(Acknowledge(request), fields, [])
    case DefaultHandler => Handled(Success(MethodResponse(200, Serialized(DefaultBody(request)))), fields, [])
  }

  /** A direct-method call on `host`: none when no handler is bound. */
  function Dispatch(host: Host, fields: Fields, request: MethodRequest,
                    callbackTimestamp: Int64, parse: string -> Option<Json>): Option<Handled>
  {
    match Lookup(host, request.name)
    case None => None
    case Some(handler) => Some(Handle(host, handler, fields, request, callbackTimestamp, parse))
  }

  // ---------------------------------------------------------------------
  // Properties of the handler table
  // ---------------------------------------------------------------------

  /** Only SetTelemetryInterval writes the interval, and only Reboot the
      stop flag, which it raises. */
  lemma FieldsWrittenOnlyByTheirHandlers(host: Host, handler: Handler, fields: Fields, request: MethodRequest,
                                         callbackTimestamp: Int64, parse: string -> Option<Json>)
    ensures var h := Handle(host, handler, fields, request, callbackTimestamp, parse);
            (handler != SetTelemetryInterval ==> h.fields.telemetryInterval == fields.telemetryInterval) &&
            (handler != Reboot ==> h.fields.stopProcessing == fields.stopProcessing) &&
            (handler == Reboot ==> h.fields.stopProcessing)
  {
  }

  /** Setting the interval to the text of an int32 sets it to that value
      and answers 200, on every entity. */
  lemma SetIntervalRoundTrip(host: Host, fields: Fields, name: string, n: Int32)
    ensures var h := SetInterval(host, fields, MethodRequest(name, Some(IntToString(n))));
            h.fields == fields.(telemetryInterval := n) &&
            h.response == Success(MethodResponse(200, Text(ExecutedText(name))))
  {
    TryParseInt32RoundTrip(n);
  }

  /** Int32.TryParse accepts '\0' padding after the number, so such a
      payload sets the interval all the same. */
  lemma SetIntervalIgnoresTrailingNuls(host: Host, fields: Fields, name: string, n: Int32, k: nat)
    ensures var h := SetInterval(host, fields, MethodRequest(name, Some(IntToString(n) + seq(k, _ => '\0'))));
            h.fields == fields.(telemetryInterval := n) &&
            h.response == Success(MethodResponse(200, Text(ExecutedText(name))))
  {
    TrailingNulsIgnored(IntToString(n), k, Int32Min, Int32Max);
    TryParseInt32RoundTrip(n);
  }

  /** A payload without a digit zeroes the interval; the device still
      answers 200, the module and the app 400. */
  lemma SetIntervalRejects(host: Host, fields: Fields, name: string, text: string)
    requires forall i :: 0 <= i < |text| ==> !IsDigit(text[i])
    ensures var h := SetInterval(host, fields, MethodRequest(name, Some(text)));
            h.fields == fields.(telemetryInterval := 0) &&
            h.response.Success? && h.response.value.body == Text(InvalidParameterText) &&
            (h.response.value.status == 200 <==> host == Device)
  {
    NoDigitNoParse(text, Int32Min, Int32Max);
  }

  /** A callback whose payload is the decimal text of a start time stamp
      reports the difference of the two stamps. */
  lemma LatencyRoundTrip(start: Int64, callbackTimestamp: Int64)
    requires Int64Min <= callbackTimestamp - start <= Int64Max
    ensures Latency(IntToString(start), callbackTimestamp) == callbackTimestamp - start
  {
    TryParseInt64RoundTrip(start);
  }

  /** An unparsable payload reports the callback's own time stamp as the
      latency. */
  lemma LatencyOfGarbage(text: string, callbackTimestamp: Int64)
    requires forall i :: 0 <= i < |text| ==> !IsDigit(text[i])
    ensures Latency(text, callbackTimestamp) == callbackTimestamp
  {
    NoDigitNoParse(text, Int64Min, Int64Max);
  }

  /** In the app, "SendLatencyTest" answers like the callback, with a
      latency body and no message sent. */
  lemma AppSendLatencyTestAnswersLatency(fields: Fields, data: Option<string>, callbackTimestamp: Int64,
                                         parse: string -> Option<Json>)
    ensures var h := Dispatch(App, fields, MethodRequest("SendLatencyTest", data), callbackTimestamp, parse);
            h.Some? && h.value.launched == [] && h.value.fields == fields &&
            (data.Some? ==>
               h.value.response ==
                 Success(MethodResponse(200, Text(LatencyText("SendLatencyTest", Latency(data.value, callbackTimestamp))))))
  {
    LatencyBindings();
  }

  /** The device's "SendLatencyTest" answers 200 at once and leaves one
      latency probe running; the module has no such handler and echoes the
      call through its default handler. */
  lemma SendLatencyTestPerHost(fields: Fields, request: MethodRequest, callbackTimestamp: Int64,
                               parse: string -> Option<Json>)
    requires request.name == "SendLatencyTest"
    ensures var h := Dispatch(Device, fields, request, callbackTimestamp, parse);
            h.Some? && h.value.launched == [LatencyProbe] && h.value.response.Success? &&
            h.value.response.value.status == 200
    ensures var h := Dispatch(Module, fields, request, callbackTimestamp, parse);
            h.Some? && h.value.launched == [] && h.value.response == Success(MethodResponse(200, Serialized(DefaultBody(request))))
  {
    LatencyBindings();
  }

  /** A name the app does not register reaches no handler; on the device
      and the module it reaches the default handler, which answers 200 and
      echoes the payload. */
  lemma UnregisteredNames(host: Host, fields: Fields, request: MethodRequest, callbackTimestamp: Int64,
                          parse: string -> Option<Json>)
    requires request.name !in RegisteredNames(host)
    ensures var h := Dispatch(host, fields, request, callbackTimestamp, parse);
            (host == App <==> h.None?) &&
            (h.Some? ==> h.value.fields == fields && h.value.launched == [] &&
                         h.value.response == Success(MethodResponse(200, Serialized(DefaultBody(request)))))
  {
  }

  /** Reboot answers at once with the stop flag raised and the rest of the
      reboot sequence left running. */
  lemma RebootRaisesStop(host: Host, fields: Fields, request: MethodRequest, callbackTimestamp: Int64,
                         parse: string -> Option<Json>)
    requires request.name == "Reboot"
    ensures var h := Dispatch(host, fields, request, callbackTimestamp, parse);
            h.Some? && h.value.fields == fields.(stopProcessing := true) &&
            h.value.launched == [RebootSequence] && h.value.response.Success? &&
            h.value.response.value.status == 200
  {
  }

  /** ReadTwins starts a twin read and answers at once: the app with 400
      and the bare text "Twins read", the device and the module with 200
      and the usual acknowledgement. */
  lemma ReadTwinsAnswers(host: Host, fields: Fields, data: Option<string>, callbackTimestamp: Int64,
                         parse: string -> Option<Json>)
    ensures var h := Dispatch(host, fields, MethodRequest("ReadTwins", data), callbackTimestamp, parse);
            h.Some? && h.value.fields == fields && h.value.launched == [TwinRead] &&
            h.value.response == Success(if host == App then MethodResponse(400, Text("Twins read"))
                                        else MethodResponse(200, Text(ExecutedText("ReadTwins"))))
  {
  }

  /** An item of the app's "data" array with a string watts type and an
      int value. */
  predicate WellFormedItem(item: Json) {
    item.JObj? &&
    Get(item.members, "wattsType").Some? && Get(item.members, "wattsType").value.JStr? &&
    Get(item.members, "wattsTypeValue").Some? && Get(item.members, "wattsTypeValue").value.JInt? &&
    Int32Min <= Get(item.members, "wattsTypeValue").value.i <= Int32Max
  }

  /** The report the app launches for a well-formed item. */
  function ReportFor(item: Json, sensorId: Json, version: Json): ConfigurationReport
    requires WellFormedItem(item)
  {
    ConfigurationReport(sensorId, version, Get(item.members, "wattsType").value,
                        Exactly(Get(item.members, "wattsTypeValue").value.i))
  }

  /** The app's OnOff with a payload object whose "S1" and
      "configurationVersion" are plain values and whose "data" is a
      non-empty array of well-formed items answers 200 and launches one
      report per item, in order, each carrying that item's watts type and
      value. */
  lemma AppReportsEveryItem(fields: Fields, text: string, parse: string -> Option<Json>,
                            ms: seq<Member>, items: seq<Json>)
    requires |text| > 0 && parse(text) == Some(JObj(ms))
    requires ValueOf(ms, "S1").Success? && ValueOf(ms, "configurationVersion").Success?
    requires Get(ms, "data") == Some(JArr(items)) && |items| > 0
    requires forall i :: 0 <= i < |items| ==> WellFormedItem(items[i])
    ensures var h := StartOrStopHandled(App, fields, MethodRequest("OnOff", Some(text)), parse);
            var s1 := Get(ms, "S1").value;
            var version := Get(ms, "configurationVersion").value;
            h.response == Success(MethodResponse(200, Text(StartOrStopReceivedText))) &&
            h.launched == [ConfigurationReports(seq(|items|, i requires 0 <= i < |items| => ReportFor(items[i], s1, version)))]
  {
    var s1 := Get(ms, "S1").value;
    var version := Get(ms, "configurationVersion").value;
    var r := ConfigurationItems(items, s1, version);
    var expected := seq(|items|, i requires 0 <= i < |items| => ReportFor(items[i], s1, version));
    forall i | 0 <= i < |items| ensures r.0[i] == expected[i] {
      assert ItemReport(items[i], s1, version) == Success(r.0[i]);
    }
    assert r.0 == expected;
  }

  /** A first item whose "wattsTypeValue" is a long outside the int range
      overflows while the call's arguments are evaluated: the app's OnOff
      throws and no report is launched. */
  lemma AppOverflowLaunchesNothing(fields: Fields, text: string, parse: string -> Option<Json>,
                                   ms: seq<Member>, items: seq<Json>)
    requires |text| > 0 && parse(text) == Some(JObj(ms))
    requires ValueOf(ms, "S1").Success? && ValueOf(ms, "configurationVersion").Success?
    requires Get(ms, "data") == Some(JArr(items)) && |items| > 0 && items[0].JObj?
    requires ValueOf(items[0].members, "wattsType").Success?
    requires Get(items[0].members, "wattsTypeValue").Some? && Get(items[0].members, "wattsTypeValue").value.JInt?
    requires Int32Max < Get(items[0].members, "wattsTypeValue").value.i <= Int64Max
    ensures var h := StartOrStopHandled(App, fields, MethodRequest("OnOff", Some(text)), parse);
            h.response == Failure(Overflow) && h.launched == []
  {
    var r := ConfigurationItems(items, Get(ms, "S1").value, Get(ms, "configurationVersion").value);
    assert ItemReport(items[0], Get(ms, "S1").value, Get(ms, "configurationVersion").value) == Failure(Overflow);
    assert |r.0| == 0;
  }
}
