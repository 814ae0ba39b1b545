/** The second simulator's Azure Function "IoTLatencyTestHandler": for a
    batch of Event Hubs events, each carrying a latency test request
    {deviceId, startTimestamp}, it calls the "LatencyTestCallback" direct
    method on that device with the start time stamp as payload. A failing
    event does not stop the batch; its exception is collected, and once
    the batch is done none, one or several collected exceptions decide
    how the function ends. */
module LatencyFunction {
  import opened Outcomes
  import opened Text
  import opened JsonTree
  import opened DirectMethods

  /** The request an event body deserializes to. */
  datatype LatencyTestRequest = LatencyTestRequest(deviceId: string, startTimestamp: Int32)

  /** ServiceClient.CreateFromConnectionString: a client, null, or an
      exception of its own. */
  datatype ClientCreation = Created | NullClient | CreationFailed(error: Exception)

  /** One CloudToDeviceMethod invocation. */
  datatype Invocation = Invocation(deviceId: string, methodName: string, payload: string, responseTimeoutSeconds: nat)

  /** The invocations made and how the function ended. */
  datatype BatchRun = BatchRun(invoked: seq<Invocation>, outcome: Check)

  /** Deserializing an event body: an exception (malformed JSON), null
      (the literal `null`), or a request. */
  type Deserializer = string -> Result<Option<LatencyTestRequest>>

  const CallbackName: string := "LatencyTestCallback"
  const ResponseTimeoutSeconds: nat := 30

  /** The part of the try block before the call: the invocation one event
      body asks for, or the exception thrown on the way. The payload is the
      start time stamp as decimal text. */
  function Request(body: string, deserialize: Deserializer): (r: Result<Invocation>)
    ensures r.Success? <==> |body| > 0 && deserialize(body).Success? && deserialize(body).value.Some?
    ensures r.Success? ==>
              var request := deserialize(body).value.value;
              r.value.deviceId == request.deviceId && r.value.methodName == CallbackName &&
              r.value.responseTimeoutSeconds == ResponseTimeoutSeconds
  {
    if |body| == 0 then Failure(ArgumentNull("myIoTHubMessage"))
    else
      var parsed :- deserialize(body);
      if parsed.None? then Failure(Argument("latencyTestRequest"))
      else
        Success(Invocation(parsed.value.deviceId, CallbackName, IntToString(parsed.value.startTimestamp), ResponseTimeoutSeconds))
  }

  /** The exceptions thrown before the call: an empty body, a body the
      deserializer rejects, and a body that deserializes to null. */
  lemma RequestFailures(body: string, deserialize: Deserializer)
    ensures |body| == 0 ==> Request(body, deserialize) == Failure(ArgumentNull("myIoTHubMessage"))
    ensures |body| > 0 && deserialize(body).Failure? ==> Request(body, deserialize) == Failure(deserialize(body).error)
    ensures |body| > 0 && deserialize(body) == Success(None) ==>
              Request(body, deserialize) == Failure(Argument("latencyTestRequest"))
  {
  }

  /** The payload reads back as the start time stamp. */
  lemma PayloadReadsBack(body: string, deserialize: Deserializer)
    requires Request(body, deserialize).Success?
    ensures TryParseInt32(Request(body, deserialize).value.payload) == Some(deserialize(body).value.value.startTimestamp)
  {
    TryParseInt32RoundTrip(deserialize(body).value.value.startTimestamp);
  }

  /** The exception the catch block records for one event, if any: the
      request's own, or the awaited call's. */
  function ItemFailure(body: string, deserialize: Deserializer, call: Check): Option<Exception> {
    match Request(body, deserialize)
    case Failure(e) => Some(e)
    case Success(_) => if call.Throw? then Some(call.error) else None
  }

  function Optional<T>(o: Option<T>): seq<T> {
    if o.Some? then [o.value] else []
  }

  /** The request each event of a batch asks for, in event order. */
  function Requests(events: seq<string>, deserialize: Deserializer): (rs: seq<Result<Invocation>>)
    ensures |rs| == |events|
    ensures forall i :: 0 <= i < |events| ==> rs[i] == Request(events[i], deserialize)
  {
    seq(|events|, i requires 0 <= i < |events| => Request(events[i], deserialize))
  }

  /** The invocations actually made: the requests that were formed, in
      order. */
  function Delivered(rs: seq<Result<Invocation>>): (s: seq<Invocation>)
    ensures |s| <= |rs|
  {
    if |rs| == 0 then [] else Delivered(rs[..|rs| - 1]) + (if rs[|rs| - 1].Success? then [rs[|rs| - 1].value] else [])
  }

  /** The invocations made for a batch, in event order. */
  function Invocations(events: seq<string>, deserialize: Deserializer): seq<Invocation> {
    Delivered(Requests(events, deserialize))
  }

  /** What each event of a batch ends with, in event order; `calls(i)` is
      how the call for event i ends. */
  function Failures(events: seq<string>, deserialize: Deserializer, calls: nat -> Check): (fs: seq<Option<Exception>>)
    ensures |fs| == |events|
    ensures forall i :: 0 <= i < |events| ==> fs[i] == ItemFailure(events[i], deserialize, calls(i))
  {
    seq(|events|, i requires 0 <= i < |events| => ItemFailure(events[i], deserialize, calls(i)))
  }

  /** The `exceptions` list: the failures that occurred, in order. */
  function Collected(fs: seq<Option<Exception>>): (s: seq<Exception>)
    ensures |s| <= |fs|
  {
    if |fs| == 0 then [] else Collected(fs[..|fs| - 1]) + Optional(fs[|fs| - 1])
  }

  /** The exceptions collected for a batch. */
  function Caught(events: seq<string>, deserialize: Deserializer, calls: nat -> Check): seq<Exception> {
    Collected(Failures(events, deserialize, calls))
  }

  /** After the loop: one exception is rethrown as it is, several are
      wrapped together. */
  function Verdict(exceptions: seq<Exception>): Check {
    if |exceptions| > 1 then Throw(Aggregate(exceptions))
    else if |exceptions| == 1 then Throw(exceptions[0])
    else Pass
  }

  /** The whole function: an absent or empty batch does nothing; otherwise
      the client must exist before any event is looked at. */
  function Batch(events: Option<seq<string>>, client: ClientCreation, deserialize: Deserializer,
                 calls: nat -> Check): (r: BatchRun)
    ensures events.None? || |events.value| == 0 ==> r == BatchRun([], Pass)
    ensures events.Some? && |events.value| > 0 && client == NullClient ==>
              r == BatchRun([], Throw(General("Service client is null")))
    ensures events.Some? && |events.value| > 0 && client.CreationFailed? ==> r == BatchRun([], Throw(client.error))
    ensures |r.invoked| > 0 ==> client == Created
  {
    if events.None? || |events.value| == 0 then BatchRun([], Pass)
    else
      match client
      case CreationFailed(e) => BatchRun([], Throw(e))
      case NullClient => BatchRun([], Throw(General("Service client is null")))
      case Created =>
        BatchRun(Invocations(events.value, deserialize), Verdict(Caught(events.value, deserialize, calls)))
  }

  /** Run: the foreach with its try/catch, then the count-based throw. */
  method Run(events: Option<seq<string>>, client: ClientCreation, deserialize: Deserializer,
             calls: nat -> Check) returns (run: BatchRun)
    ensures run == Batch(events, client, deserialize, calls)
  {
    if events.None? || |events.value| == 0 {
      return BatchRun([], Pass);
    }
    if client.CreationFailed? {
      return BatchRun([], Throw(client.error));
    }
    if client.NullClient? {
      return BatchRun([], Throw(General("Service client is null")));
    }
    var batch := events.value;
    var exceptions: seq<Exception> := [];
    var invoked: seq<Invocation> := [];
    var i := 0;
    while i < |batch|
      invariant 0 <= i <= |batch|
      invariant invoked == Invocations(batch[..i], deserialize)
      invariant exceptions == Caught(batch[..i], deserialize, calls)
    {
      var body := batch[i];
      BatchStep(batch, i, deserialize, calls);
      if |body| == 0 {
        exceptions := exceptions + [ArgumentNull("myIoTHubMessage")];
      } else {
        var parsed := deserialize(body);
        if parsed.Failure? {
          exceptions := exceptions + [parsed.error];
        } else if parsed.value.None? {
          exceptions := exceptions + [Argument("latencyTestRequest")];
        } else {
          var request := parsed.value.value;
          invoked := invoked + [Invocation(request.deviceId, CallbackName, IntToString(request.startTimestamp),
                                           ResponseTimeoutSeconds)];
          var call := calls(i);
          if call.Throw? {
            exceptions := exceptions + [call.error];
          }
        }
      }
      i := i + 1;
    }
    assert batch[..i] == batch;
    if |exceptions| > 1 {
      run := BatchRun(invoked, Throw(Aggregate(exceptions)));
    } else if |exceptions| == 1 {
      run := BatchRun(invoked, Throw(exceptions[0]));
    } else {
      run := BatchRun(invoked, Pass);
    }
  }

  // ---------------------------------------------------------------------
  // Properties
  // ---------------------------------------------------------------------

  /** The requests of a concatenation are those of its parts. */
  lemma RequestsAppend(a: seq<string>, b: seq<string>, deserialize: Deserializer)
    ensures Requests(a + b, deserialize) == Requests(a, deserialize) + Requests(b, deserialize)
  {
    var whole := Requests(a + b, deserialize);
    var parts := Requests(a, deserialize) + Requests(b, deserialize);
    forall i | 0 <= i < |whole| ensures whole[i] == parts[i] {
      if i < |a| {
        assert (a + b)[i] == a[i];
      } else {
        assert (a + b)[i] == b[i - |a|];
      }
    }
  }

  lemma {:induction false} DeliveredAppend(r: seq<Result<Invocation>>, t: seq<Result<Invocation>>)
    ensures Delivered(r + t) == Delivered(r) + Delivered(t)
    decreases |t|
  {
    if |t| == 0 {
      assert r + t == r;
    } else {
      var n := |t| - 1;
      assert (r + t)[..|r + t| - 1] == r + t[..n];
      assert (r + t)[|r + t| - 1] == t[n];
      DeliveredAppend(r, t[..n]);
    }
  }

  /** Events are processed independently: the invocations of a batch are
      those of its first part followed by those of the rest, whatever
      failed in the first part. */
  lemma InvocationsAppend(a: seq<string>, b: seq<string>, deserialize: Deserializer)
    ensures Invocations(a + b, deserialize) == Invocations(a, deserialize) + Invocations(b, deserialize)
  {
    RequestsAppend(a, b, deserialize);
    DeliveredAppend(Requests(a, deserialize), Requests(b, deserialize));
  }

  /** Every formed request is delivered, and every delivery is a formed
      request. */
  lemma {:induction false} DeliveredAreTheFormed(rs: seq<Result<Invocation>>)
    ensures forall i :: 0 <= i < |rs| && rs[i].Success? ==> rs[i].value in Delivered(rs)
    ensures forall inv :: inv in Delivered(rs) ==> exists i :: 0 <= i < |rs| && rs[i] == Success(inv)
  {
    if |rs| > 0 {
      var n := |rs| - 1;
      var front := rs[..n];
      DeliveredAreTheFormed(front);
      assert forall i :: 0 <= i < n ==> front[i] == rs[i];
      forall inv | inv in Delivered(rs) ensures exists i :: 0 <= i < |rs| && rs[i] == Success(inv) {
        if inv in Delivered(front) {
          var i :| 0 <= i < |front| && front[i] == Success(inv);
          assert rs[i] == Success(inv);
        } else {
          assert rs[n] == Success(inv);
        }
      }
    }
  }

  /** Every event whose request is well formed is invoked, and every
      invocation comes from such an event. */
  lemma InvocationsAreTheWellFormedRequests(events: seq<string>, deserialize: Deserializer)
    ensures forall i :: 0 <= i < |events| && Request(events[i], deserialize).Success? ==>
              Request(events[i], deserialize).value in Invocations(events, deserialize)
    ensures forall inv :: inv in Invocations(events, deserialize) ==>
              exists i :: 0 <= i < |events| && Request(events[i], deserialize) == Success(inv)
  {
    var rs := Requests(events, deserialize);
    DeliveredAreTheFormed(rs);
    forall inv | inv in Invocations(events, deserialize)
      ensures exists i :: 0 <= i < |events| && Request(events[i], deserialize) == Success(inv)
    {
      var i :| 0 <= i < |rs| && rs[i] == Success(inv);
      assert Request(events[i], deserialize) == Success(inv);
    }
  }

  /** One more event of the batch: its invocation, if any, and its
      exception, if any, come after those of the events before it. */
  lemma BatchStep(batch: seq<string>, i: nat, deserialize: Deserializer, calls: nat -> Check)
    requires i < |batch|
    ensures var request := Request(batch[i], deserialize);
            Invocations(batch[..i + 1], deserialize) ==
            Invocations(batch[..i], deserialize) + (if request.Success? then [request.value] else [])
    ensures Caught(batch[..i + 1], deserialize, calls) ==
            Caught(batch[..i], deserialize, calls) + Optional(ItemFailure(batch[i], deserialize, calls(i)))
  {
    RequestsExtend(batch, i, deserialize);
    FailuresExtend(batch, i, deserialize, calls);
  }

  /** The requests of one more event extend those before it. */
  lemma RequestsExtend(batch: seq<string>, i: nat, deserialize: Deserializer)
    requires i < |batch|
    ensures Requests(batch[..i + 1], deserialize) == Requests(batch[..i], deserialize) + [Request(batch[i], deserialize)]
  {
    var longer := Requests(batch[..i + 1], deserialize);
    var shorter := Requests(batch[..i], deserialize);
    assert forall j :: 0 <= j < i ==> longer[j] == shorter[j];
  }

  /** The failures of one more event extend those before it. */
  lemma FailuresExtend(batch: seq<string>, i: nat, deserialize: Deserializer, calls: nat -> Check)
    requires i < |batch|
    ensures Failures(batch[..i + 1], deserialize, calls) ==
            Failures(batch[..i], deserialize, calls) + [ItemFailure(batch[i], deserialize, calls(i))]
  {
    var longer := Failures(batch[..i + 1], deserialize, calls);
    var shorter := Failures(batch[..i], deserialize, calls);
    assert forall j :: 0 <= j < i ==> longer[j] == shorter[j];
  }

  /** Nothing is collected exactly when no failure occurred. */
  lemma {:induction false} NothingCollectedIff(fs: seq<Option<Exception>>)
    ensures |Collected(fs)| == 0 <==> forall i :: 0 <= i < |fs| ==> fs[i].None?
  {
    if |fs| > 0 {
      var n := |fs| - 1;
      NothingCollectedIff(fs[..n]);
      assert forall i :: 0 <= i < n ==> fs[..n][i] == fs[i];
    }
  }

  /** A single failure is all that is collected. */
  lemma {:induction false} OnlyFailureCollected(fs: seq<Option<Exception>>, f: nat)
    requires f < |fs| && fs[f].Some?
    requires forall i :: 0 <= i < |fs| && i != f ==> fs[i].None?
    ensures Collected(fs) == [fs[f].value]
  {
    var n := |fs| - 1;
    var front := fs[..n];
    assert forall i :: 0 <= i < n ==> front[i] == fs[i];
    if f < n {
      OnlyFailureCollected(front, f);
      assert Optional(fs[n]) == [];
    } else {
      NothingCollectedIff(front);
    }
  }

  /** A failure's exception is among those collected, after the
      exceptions of the failures before it. */
  lemma {:induction false} CollectedIndex(fs: seq<Option<Exception>>, f: nat) returns (p: nat)
    requires f < |fs| && fs[f].Some?
    ensures p < |Collected(fs)| && Collected(fs)[p] == fs[f].value
    ensures p == |Collected(fs[..f])|
  {
    var n := |fs| - 1;
    var front := fs[..n];
    if f < n {
      assert front[f] == fs[f] && front[..f] == fs[..f];
      p := CollectedIndex(front, f);
    } else {
      assert front == fs[..f];
      p := |Collected(front)|;
    }
  }

  /** The collected exceptions of a prefix are a prefix of the collected
      exceptions. */
  lemma {:induction false} CollectedPrefix(fs: seq<Option<Exception>>, k: nat)
    requires k <= |fs|
    ensures |Collected(fs[..k])| <= |Collected(fs)|
    ensures Collected(fs[..k]) == Collected(fs)[..|Collected(fs[..k])|]
    decreases |fs|
  {
    if k < |fs| {
      var n := |fs| - 1;
      assert fs[..n][..k] == fs[..k];
      CollectedPrefix(fs[..n], k);
    } else {
      assert fs[..k] == fs;
    }
  }

  /** Two failures are collected in their order. */
  lemma CollectedInOrder(fs: seq<Option<Exception>>, f: nat, g: nat) returns (p: nat, q: nat)
    requires f < g < |fs| && fs[f].Some? && fs[g].Some?
    ensures p < q < |Collected(fs)| && Collected(fs)[p] == fs[f].value && Collected(fs)[q] == fs[g].value
  {
    p := CollectedIndex(fs, f);
    q := CollectedIndex(fs, g);
    var upToF := CollectedIndex(fs[..g], f);
    assert fs[..g][..f] == fs[..f];
    CollectedPrefix(fs, g);
  }

  /** Nothing is collected exactly when every event's request is well
      formed and every call returns. */
  lemma NothingCaughtIff(events: seq<string>, deserialize: Deserializer, calls: nat -> Check)
    ensures |Caught(events, deserialize, calls)| == 0 <==>
            forall i :: 0 <= i < |events| ==> ItemFailure(events[i], deserialize, calls(i)).None?
  {
    NothingCollectedIff(Failures(events, deserialize, calls));
  }

  /** When exactly one event fails, its exception is all that is collected. */
  lemma OnlyFailureCaught(events: seq<string>, deserialize: Deserializer, calls: nat -> Check, f: nat)
    requires f < |events| && ItemFailure(events[f], deserialize, calls(f)).Some?
    requires forall i :: 0 <= i < |events| && i != f ==> ItemFailure(events[i], deserialize, calls(i)).None?
    ensures Caught(events, deserialize, calls) == [ItemFailure(events[f], deserialize, calls(f)).value]
  {
    OnlyFailureCollected(Failures(events, deserialize, calls), f);
  }

  /** Two failing events give two collected exceptions, the earlier one
      first. */
  lemma FailuresCaughtInOrder(events: seq<string>, deserialize: Deserializer, calls: nat -> Check, f: nat, g: nat)
    requires f < g < |events|
    requires ItemFailure(events[f], deserialize, calls(f)).Some? && ItemFailure(events[g], deserialize, calls(g)).Some?
    ensures exists p, q :: 0 <= p < q < |Caught(events, deserialize, calls)| &&
              Caught(events, deserialize, calls)[p] == ItemFailure(events[f], deserialize, calls(f)).value &&
              Caught(events, deserialize, calls)[q] == ItemFailure(events[g], deserialize, calls(g)).value
  {
    var fs := Failures(events, deserialize, calls);
    var p, q := CollectedInOrder(fs, f, g);
    assert Caught(events, deserialize, calls)[p] == fs[f].value && Caught(events, deserialize, calls)[q] == fs[g].value;
  }

  /** A batch where every request is well formed and every call returns
      invokes once per event and completes. */
  lemma AllDeliveredPasses(events: seq<string>, deserialize: Deserializer, calls: nat -> Check)
    requires |events| > 0
    requires forall i :: 0 <= i < |events| ==> Request(events[i], deserialize).Success? && calls(i) == Pass
    ensures var run := Batch(Some(events), Created, deserialize, calls);
            run.outcome == Pass && |run.invoked| == |events|
  {
    NothingCaughtIff(events, deserialize, calls);
    InvocationsCount(events, deserialize);
  }

  /** With every request well formed, there is one invocation per event. */
  lemma InvocationsCount(events: seq<string>, deserialize: Deserializer)
    requires forall i :: 0 <= i < |events| ==> Request(events[i], deserialize).Success?
    ensures |Invocations(events, deserialize)| == |events|
  {
    DeliveredCount(Requests(events, deserialize));
  }

  /** When every request is formed, each one is delivered. */
  lemma {:induction false} DeliveredCount(rs: seq<Result<Invocation>>)
    requires forall i :: 0 <= i < |rs| ==> rs[i].Success?
    ensures |Delivered(rs)| == |rs|
  {
    if |rs| > 0 {
      var n := |rs| - 1;
      assert forall i :: 0 <= i < n ==> rs[..n][i] == rs[i];
      DeliveredCount(rs[..n]);
    }
  }

  /** A single failing event makes the function throw that very exception,
      not an aggregate of one. */
  lemma SingleFailureRethrown(events: seq<string>, deserialize: Deserializer, calls: nat -> Check, f: nat)
    requires f < |events| && ItemFailure(events[f], deserialize, calls(f)).Some?
    requires forall i :: 0 <= i < |events| && i != f ==> ItemFailure(events[i], deserialize, calls(i)).None?
    ensures Batch(Some(events), Created, deserialize, calls).outcome ==
            Throw(ItemFailure(events[f], deserialize, calls(f)).value)
  {
    OnlyFailureCaught(events, deserialize, calls, f);
  }

  /** Two or more failing events make the function throw an aggregate
      holding every collected exception, in event order. */
  lemma SeveralFailuresAggregated(events: seq<string>, deserialize: Deserializer, calls: nat -> Check, f: nat, g: nat)
    requires f < g < |events|
    requires ItemFailure(events[f], deserialize, calls(f)).Some? && ItemFailure(events[g], deserialize, calls(g)).Some?
    ensures var outcome := Batch(Some(events), Created, deserialize, calls).outcome;
            outcome.Throw? && outcome.error.Aggregate? && outcome.error.inner == Caught(events, deserialize, calls)
    ensures exists p, q :: 0 <= p < q < |Caught(events, deserialize, calls)| &&
              Caught(events, deserialize, calls)[p] == ItemFailure(events[f], deserialize, calls(f)).value &&
              Caught(events, deserialize, calls)[q] == ItemFailure(events[g], deserialize, calls(g)).value
  {
    FailuresCaughtInOrder(events, deserialize, calls, f, g);
  }

  /** What a simulated device answers to an invocation: the callback
      answers 200 with a latency computed from the payload, and since the
      payload parses back to the start time stamp, that latency is the
      callback's own time stamp minus the start. */
  lemma DeviceAnswersLatency(body: string, deserialize: Deserializer, fields: Fields, callbackTimestamp: Int64,
                             parse: string -> Option<Json>)
    requires Request(body, deserialize).Success?
    ensures var inv := Request(body, deserialize).value;
            Dispatch(Device, fields, MethodRequest(inv.methodName, Some(inv.payload)), callbackTimestamp, parse) ==
              Some(Handled(Success(MethodResponse(200, Text(LatencyText(CallbackName, Latency(inv.payload, callbackTimestamp))))),
                           fields, []))
    ensures var inv := Request(body, deserialize).value;
            var start := deserialize(body).value.value.startTimestamp;
            Int64Min <= callbackTimestamp - start <= Int64Max ==> Latency(inv.payload, callbackTimestamp) == callbackTimestamp - start
  {
    var start := deserialize(body).value.value.startTimestamp;
    var inv := Request(body, deserialize).value;
    assert inv == Invocation(inv.deviceId, CallbackName, IntToString(start), ResponseTimeoutSeconds);
    CallbackAnswers(start, fields, callbackTimestamp, parse);
  }

  /** The device side alone: "LatencyTestCallback" with a decimal start
      time stamp answers 200 with the difference. */
  lemma CallbackAnswers(start: Int32, fields: Fields, callbackTimestamp: Int64, parse: string -> Option<Json>)
    ensures var payload := IntToString(start);
            Dispatch(Device, fields, MethodRequest(CallbackName, Some(payload)), callbackTimestamp, parse) ==
              Some(Handled(Success(MethodResponse(200, Text(LatencyText(CallbackName, Latency(payload, callbackTimestamp))))),
                           fields, []))
    ensures Int64Min <= callbackTimestamp - start <= Int64Max ==>
              Latency(IntToString(start), callbackTimestamp) == callbackTimestamp - start
  {
    LatencyBindings();
    if Int64Min <= callbackTimestamp - start <= Int64Max {
      LatencyRoundTrip(start, callbackTimestamp);
    }
  }
}
