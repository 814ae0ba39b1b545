/** `SimpleTelemetryMessageService`: the telemetry message is the template
    file's text with the ids stamped in and, for the randomized variant,
    the data items refreshed. The file's contents are a parameter; the
    JSON reader and writer are `parse` and `serialize`. */
module TelemetryMessages {
  import opened Outcomes
  import opened JsonTree
  import opened IoTTools

  /** GetMessageAsync(): the template text, which must not be empty. */
  function ReadTemplate(template: string): (r: Result<string>)
    ensures r.Success? <==> |template| > 0
    ensures r.Success? ==> r.value == template
    ensures r.Failure? ==> r.error == ArgumentNull("messageString")
  {
    if |template| == 0 then Failure(ArgumentNull("messageString")) else Success(template)
  }

  /** The id the service traces under: the module id when there is one,
      the device id otherwise. */
  function TracingArtifactId(deviceId: string, moduleId: string): (r: string)
    ensures |r| == 0 <==> |deviceId| == 0 && |moduleId| == 0
    ensures r == moduleId || r == deviceId
    ensures |moduleId| > 0 ==> r == moduleId
  {
    if |moduleId| == 0 then deviceId else moduleId
  }

  /** A tree result written out as text; a failure stays as is. */
  function Serialized(r: Result<seq<Member>>, serialize: seq<Member> -> string): (s: Result<string>)
    ensures s.Success? <==> r.Success?
    ensures s.Success? ==> s.value == serialize(r.value)
    ensures s.Failure? ==> s.error == r.error
  {
    match r
    case Success(ms) => Success(serialize(ms))
    case Failure(e) => Failure(e)
  }

  /** GetMessageAsync(deviceId, moduleId): the template with the ids
      stamped, serialized. */
  function GetMessageFor(template: string, deviceId: string, moduleId: string,
                         parse: string -> Option<Json>, serialize: seq<Member> -> string): (r: Result<string>)
    ensures |template| == 0 ==> r == Failure(ArgumentNull("messageString"))
    ensures |template| > 0 ==> r == Serialized(UpdateIds(template, deviceId, moduleId, parse), serialize)
  {
    var text :- ReadTemplate(template);
    var ms :- UpdateIds(text, deviceId, moduleId, parse);
    Success(serialize(ms))
  }

  /** GetRandomizedMessageAsync(deviceId, moduleId): the message with the
      ids stamped is read back and randomized, then serialized. */
  function GetRandomizedMessage(template: string, deviceId: string, moduleId: string,
                                parse: string -> Option<Json>, serialize: seq<Member> -> string,
                                stamps: nat -> int, draws: nat -> int): Result<string>
  {
    var text :- GetMessageFor(template, deviceId, moduleId, parse, serialize);
    var ms :- Randomized(text, parse, stamps, draws);
    Success(serialize(ms))
  }

  /** The writer and the reader agree: written text is never empty and
      reads back as the same object. */
  ghost predicate RoundTrips(parse: string -> Option<Json>, serialize: seq<Member> -> string) {
    forall ms :: |serialize(ms)| > 0 && parse(serialize(ms)) == Some(JObj(ms))
  }

  /** The randomized message on trees: ids stamped first, then the data
      items randomized. */
  function RandomizedTree(template: string, deviceId: string, moduleId: string,
                          parse: string -> Option<Json>, stamps: nat -> int, draws: nat -> int): Result<seq<Member>>
  {
    if |template| == 0 then Failure(ArgumentNull("messageString"))
    else
      var ms :- UpdateIds(template, deviceId, moduleId, parse);
      RandomizeObject(ms, stamps, draws)
  }

  /** When the writer and the reader agree, the text round trip between the
      two steps changes nothing: the randomized message is the tree
      composition written out. */
  lemma RandomizedMessageComposes(template: string, deviceId: string, moduleId: string,
                                  parse: string -> Option<Json>, serialize: seq<Member> -> string,
                                  stamps: nat -> int, draws: nat -> int)
    requires RoundTrips(parse, serialize)
    ensures GetRandomizedMessage(template, deviceId, moduleId, parse, serialize, stamps, draws)
            == Serialized(RandomizedTree(template, deviceId, moduleId, parse, stamps, draws), serialize)
  {
    if |template| > 0 {
      var stamped := UpdateIds(template, deviceId, moduleId, parse);
      if stamped.Success? {
        var text := serialize(stamped.value);
        assert parse(text) == Some(JObj(stamped.value));
        assert ParseObject(text, parse) == Success(stamped.value);
      }
    }
  }

  /** The ids stamped by UpdateIds survive the randomization: a template
      with a "deviceId" property carries the device id, and one with a
      "moduleId" property carries a non-empty module id. */
  lemma RandomizedTreeKeepsIds(template: string, deviceId: string, moduleId: string,
                               parse: string -> Option<Json>, stamps: nat -> int, draws: nat -> int)
    requires RandomizedTree(template, deviceId, moduleId, parse, stamps, draws).Success?
    ensures |template| > 0 && |deviceId| > 0 && parse(template).Some? && parse(template).value.JObj?
    ensures var before := parse(template).value.members;
            var out := RandomizedTree(template, deviceId, moduleId, parse, stamps, draws).value;
            Keys(out) == Keys(before) &&
            Get(out, "deviceId") == (if HasKey(before, "deviceId") then Some(JStr(deviceId)) else None) &&
            (|moduleId| > 0 && HasKey(before, "moduleId") ==> Get(out, "moduleId") == Some(JStr(moduleId)))
  {
    var before := parse(template).value.members;
    var stamped := UpdateIdsObject(before, deviceId, moduleId);
    RandomizeObjectKeepsShape(stamped, stamps, draws);
  }

  /** The data items are refreshed exactly as RandomizeData does it on the
      stamped tree: the "data" array, when there is one, keeps its length
      and each element is stamped with its own clock reading and draw. */
  lemma RandomizedTreeStampsData(template: string, deviceId: string, moduleId: string,
                                 parse: string -> Option<Json>, stamps: nat -> int, draws: nat -> int)
    requires RandomizedTree(template, deviceId, moduleId, parse, stamps, draws).Success?
    requires parse(template).Some? && parse(template).value.JObj?
    requires var d := Get(parse(template).value.members, "data"); d.Some? && d.value.JArr?
    ensures var items := Get(parse(template).value.members, "data").value.items;
            var out := RandomizedTree(template, deviceId, moduleId, parse, stamps, draws).value;
            Get(out, "data").Some? && Get(out, "data").value.JArr? &&
            |Get(out, "data").value.items| == |items| &&
            forall i :: 0 <= i < |items| ==>
              StampItem(items[i], "propertyValue", stamps(i), draws(i)) == Success(Get(out, "data").value.items[i])
  {
    var before := parse(template).value.members;
    var stamped := UpdateIdsObject(before, deviceId, moduleId);
    assert Get(stamped, "data") == Get(before, "data");
    RandomizeObjectKeepsShape(stamped, stamps, draws);
  }
}
