/** The runtime state the three simulated entities keep
    (`DeviceSimulationService`, `ModuleSimulationService` and the second
    simulator's `SimulationApp`): the telemetry interval and the stop flag,
    which the direct-method handlers and the reboot sequence write and the
    send loops read. The three classes differ only in how they start and in
    their handler tables, so one class models them, tagged with its host. */
module Entities {
  import opened Outcomes
  import opened Text
  import opened JsonTree
  import opened Settings
  import opened DirectMethods

  class Entity {
    const host: Host
    const deviceId: string
    var telemetryInterval: Int32
    var stopProcessing: bool

    /** The two fields as a value. */
    function Fields(): Fields
      reads this
    {
      DirectMethods.Fields(telemetryInterval, stopProcessing)
    }

    /** DeviceSimulationService's constructor: the interval comes from the
        simulation settings, the device id from the connection string. */
    constructor ForDevice(settings: DeviceSettings)
      ensures host == Device && deviceId == settings.DeviceId()
      ensures telemetryInterval == settings.simulationSettings.telemetryFrecuency && !stopProcessing
    {
      host := Device;
      deviceId := settings.DeviceId();
      telemetryInterval := settings.simulationSettings.telemetryFrecuency;
      stopProcessing := false;
    }

    /** ModuleSimulationService's constructor: the interval starts at 10
        seconds whatever the settings say. */
    constructor ForModule(settings: ModuleSettings)
      ensures host == Module && deviceId == settings.DeviceId()
      ensures telemetryInterval == 10 && !stopProcessing
    {
      host := Module;
      deviceId := settings.DeviceId();
      telemetryInterval := 10;
      stopProcessing := false;
    }

    /** SimulationApp's constructor: device settings and simulation
        settings come separately. */
    constructor ForApp(settings: DeviceSettings, simulation: SimulationSettings)
      ensures host == App && deviceId == settings.DeviceId()
      ensures telemetryInterval == simulation.telemetryFrecuency && !stopProcessing
    {
      host := App;
      deviceId := settings.DeviceId();
      telemetryInterval := simulation.telemetryFrecuency;
      stopProcessing := false;
    }

    /** The SetTelemetryInterval handler: TryParse writes the field whether
        or not the payload parses. */
    method SetTelemetryInterval(request: MethodRequest) returns (response: Result<MethodResponse>)
      modifies this
      ensures Handled(response, Fields(), []) == SetInterval(host, old(Fields()), request)
      ensures request.data.Some? ==> telemetryInterval as int == OutValue(TryParseInt32(request.data.value))
      ensures stopProcessing == old(stopProcessing)
    {
      if request.data.None? {
        return Failure(ArgumentNull("bytes"));
      }
      var parsed := TryParseInt32(request.data.value);
      telemetryInterval := if parsed.Some? then parsed.value else 0;
      if parsed.Some? {
        response := Success(MethodResponse(200, Text(ExecutedText(request.name))));
      } else {
        response := Success(MethodResponse(if host == Device then 200 else 400, Text(InvalidParameterText)));
      }
    }

    /** The part of RebootOrchestration that runs before its first await,
        and so before the Reboot handler returns: the stop flag goes up. */
    method StartReboot()
      modifies this
      ensures stopProcessing && telemetryInterval == old(telemetryInterval)
    {
      stopProcessing := true;
    }

    /** The rest of RebootOrchestration, once the handler has returned:
        report "rebooting", wait, report "online"; an exception from a
        report is caught and logged, and `finally` lowers the stop flag
        on every path. Returns the reports attempted and the exception
        caught, if any. */
    method CompleteReboot(lastReboot: string, firstReport: Check, secondReport: Check)
      returns (reported: seq<Json>, caught: Option<Exception>)
      modifies this
      ensures !stopProcessing && telemetryInterval == old(telemetryInterval)
      ensures reported == if firstReport.Throw? then [RebootReport(lastReboot, "rebooting")]
                          else [RebootReport(lastReboot, "rebooting"), RebootReport(lastReboot, "online")]
      ensures caught == if firstReport.Throw? then Some(firstReport.error)
                        else if secondReport.Throw? then Some(secondReport.error)
                        else None
    {
      reported := [RebootReport(lastReboot, "rebooting")];
      caught := None;
      if firstReport.Throw? {
        caught := Some(firstReport.error);
      } else {
        reported := reported + [RebootReport(lastReboot, "online")];
        if secondReport.Throw? {
          caught := Some(secondReport.error);
        }
      }
      stopProcessing := false;
    }

    /** A direct-method call reaching this entity: the handler bound to the
        name runs on the current fields, and its writes are kept. */
    method Invoke(request: MethodRequest, callbackTimestamp: Int64, parse: string -> Option<Json>)
      returns (r: Option<Handled>)
      modifies this
      ensures r == Dispatch(host, old(Fields()), request, callbackTimestamp, parse)
      ensures r.Some? ==> Fields() == r.value.fields
      ensures r.None? ==> Fields() == old(Fields())
    {
      var handler := Lookup(host, request.name);
      if handler.None? {
        return None;
      }
      match handler.value
      case SetTelemetryInterval =>
        var response := SetTelemetryInterval(request);
        r := Some(Handled(response, Fields(), []));
      case Reboot =>
        StartReboot();
        var body := if host == Device then ExecutedText(request.name) else RebootReceivedText;
        r := Some(Handled(Success(MethodResponse(200, Text(body))), Fields(), [RebootSequence]));
      case _ =>
        r := Some(Handle(host, handler.value, Fields(), request, callbackTimestamp, parse));
    }
  }

  /** The reported properties a reboot sends:
      {"iothubDM": {"reboot": {"lastReboot": ...}, "rebootStatus": ...}}. */
  function RebootReport(lastReboot: string, status: string): (j: Json)
    ensures j.JObj? && Keys(j.members) == ["iothubDM"]
    ensures var dm := Get(j.members, "iothubDM");
            dm.Some? && dm.value.JObj? && Keys(dm.value.members) == ["reboot", "rebootStatus"] &&
            Get(dm.value.members, "rebootStatus") == Some(JStr(status))
  {
    var dm := [Member("reboot", JObj([Member("lastReboot", JStr(lastReboot))])), Member("rebootStatus", JStr(status))];
    assert |dm[0].key| == 6 && |dm[1].key| == 12;
    FindKeyAt(dm, "rebootStatus", 1);
    FindKeyAt([Member("iothubDM", JObj(dm))], "iothubDM", 0);
    JObj([Member("iothubDM", JObj(dm))])
  }

  /** A whole reboot as seen from the fields: the handler raises the stop
      flag, the sequence it launched lowers it again, and the interval is
      never touched. */
  method RebootCycle(e: Entity, request: MethodRequest, lastReboot: string, firstReport: Check, secondReport: Check)
    returns (h: Option<Handled>, reported: seq<Json>)
    requires request.name == "Reboot"
    modifies e
    ensures h.Some? && h.value.fields.stopProcessing && h.value.launched == [RebootSequence]
    ensures h.value.response.Success? && h.value.response.value.status == 200
    ensures !e.stopProcessing && e.telemetryInterval == old(e.telemetryInterval)
    ensures |reported| >= 1
  {
    h := e.Invoke(request, 0, _ => None);
    var caught;
    reported, caught := e.CompleteReboot(lastReboot, firstReport, secondReport);
  }
}
