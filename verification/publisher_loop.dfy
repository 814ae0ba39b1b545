/** The device-to-cloud send loops (`SendDeviceToCloudMessagesAsync`,
    `...ErrorAsync`, `...CommissioningAsync`, `...LatencyTestAsync`) of the
    three entities. Each is a `while (true)` that builds a message, sends
    it, counts it, checks the stop flag and then waits `interval * 1000`
    milliseconds. Everything the loop reads from outside is one
    observation per iteration: the message its message service (or
    template file) yields, the UTC time stamp, the outcome of the send,
    the value of `_stopProcessing` and, for the telemetry loop, of
    `_telemetryInterval`. */
module PublisherLoop {
  import opened Outcomes
  import opened Text
  import opened JsonTree
  import opened DirectMethods

  datatype Kind = Telemetry | Error | Commissioning | Latency

  /** The module has no latency loop. */
  predicate LoopExists(host: Host, kind: Kind) {
    !(host == Module && kind == Latency)
  }

  /** The loop's arguments: the entity, which loop, the device id and the
      fixed interval in seconds (unused by the telemetry loop, which reads
      the field on every round). */
  datatype LoopConfig = LoopConfig(host: Host, kind: Kind, deviceId: string, interval: Int32)

  /** What one round of the loop reads from outside. */
  datatype Observation = Observation(
    message: Result<Payload>,   // the message service's (or template file's) outcome
    utcStamp: Int64,            // DateTime.UtcNow.TimeStamp(), for the latency probe
    send: Check,                // the outcome of SendEventAsync
    stopSeen: bool,             // _stopProcessing when tested
    intervalSeen: Int32)        // _telemetryInterval when the delay is computed

  /** How a message body becomes bytes: Encoding.UTF8 or Encoding.ASCII. */
  datatype TextEncoding = Utf8 | Ascii

  /** A sent message: its body, the encoding its bytes were made with, and
      its one application property. */
  datatype Message = Message(body: Payload, encoding: TextEncoding, propertyKey: string, propertyValue: string)

  /** The telemetry loops encode their message as UTF-8; the error,
      commissioning and latency loops as ASCII. */
  function EncodingOf(kind: Kind): TextEncoding {
    if kind == Telemetry then Utf8 else Ascii
  }

  predicate IsAscii(c: char) {
    c <= '\U{7F}'
  }

  /** The text that Encoding.ASCII's bytes read back as: every character
      above U+007F is replaced by '?'. */
  function AsciiText(s: string): (t: string)
    ensures |t| == |s|
    ensures forall i :: 0 <= i < |s| ==> IsAscii(t[i])
    ensures forall i :: 0 <= i < |s| && IsAscii(s[i]) ==> t[i] == s[i]
    ensures forall i :: 0 <= i < |s| && !IsAscii(s[i]) ==> t[i] == '?'
  {
    seq(|s|, i requires 0 <= i < |s| => if IsAscii(s[i]) then s[i] else '?')
  }

  /** ASCII encoding loses nothing exactly when the text is already
      ASCII. */
  lemma AsciiKeepsTextIff(s: string)
    ensures AsciiText(s) == s <==> forall i :: 0 <= i < |s| ==> IsAscii(s[i])
  {
    if forall i :: 0 <= i < |s| ==> IsAscii(s[i]) {
      assert AsciiText(s) == s;
    }
  }

  /** Encoding twice is encoding once. */
  lemma AsciiIdempotent(s: string)
    ensures AsciiText(AsciiText(s)) == AsciiText(s)
  {
    AsciiKeepsTextIff(AsciiText(s));
  }

  /** The text a receiver decodes from a message with a text body. */
  function WireText(m: Message): (t: string)
    requires m.body.Text?
    ensures m.encoding == Utf8 ==> t == m.body.text
    ensures m.encoding == Ascii ==> t == AsciiText(m.body.text)
  {
    if m.encoding == Ascii then AsciiText(m.body.text) else m.body.text
  }

  /** Why a finite run of observations ended: the loop broke out, its task
      faulted, or it is still running (or waiting forever). */
  datatype LoopEnd = Stopped | Faulted(error: Exception) | Running

  datatype LoopRun = LoopRun(sent: seq<Message>, counter: Option<int>, end: LoopEnd)

  /** What the rest of a round does once its message is out. */
  datatype AfterSend = Continue | Break | DelayFault(error: Exception) | WaitForever

  datatype Round = NotSent(error: Exception) | Sent(message: Message, next: AfterSend)

  // ---------------------------------------------------------------------
  // One round
  // ---------------------------------------------------------------------

  /** The local `counter`: where it starts, and none where the loop has
      none. */
  function CounterStart(host: Host, kind: Kind): Option<int> {
    match (host, kind)
    case (Device, Latency) => None
    case (Device, _) => Some(0)
    case (Module, _) => Some(1)
    case (App, Telemetry) => Some(1)
    case (App, _) => None
  }

  /** How much a send adds to the counter: the module's commissioning loop
      never increments its counter. */
  function CounterStep(host: Host, kind: Kind): int {
    if host == Module && kind == Commissioning then 0 else 1
  }

  function Bump(counter: Option<int>, step: int): Option<int> {
    match counter
    case None => None
    case Some(n) => Some(n + step)
  }

  /** The anonymous {deviceId, messageType, startTimestamp} object of the
      latency loop; the app spells the last key "starttimestamp". */
  function LatencyProbeBody(host: Host, deviceId: string, stamp: Int64): (j: Json)
    ensures j.JObj?
    ensures Get(j.members, "deviceId") == Some(JStr(deviceId))
    ensures Get(j.members, "messageType") == Some(JStr("latency"))
    ensures Get(j.members, if host == App then "starttimestamp" else "startTimestamp") == Some(JInt(stamp))
  {
    var stampKey := if host == App then "starttimestamp" else "startTimestamp";
    var ms := [Member("deviceId", JStr(deviceId)), Member("messageType", JStr("latency")), Member(stampKey, JInt(stamp))];
    assert |ms[0].key| == 8 && |ms[1].key| == 11 && |ms[2].key| == 14;
    FindKeyAt(ms, "deviceId", 0);
    FindKeyAt(ms, "messageType", 1);
    FindKeyAt(ms, stampKey, 2);
    JObj(ms)
  }

  /** The application property each loop adds: the telemetry loop writes
      "messageType", the others "messagetype". */
  function MessageProperty(kind: Kind): (string, string) {
    match kind
    case Telemetry => ("messageType", "data")
    case Error => ("messagetype", "error")
    case Commissioning => ("messagetype", "commissioning")
    case Latency => ("messagetype", "latency")
  }

  /** The round's message, or the exception that faults the loop before
      anything is sent. */
  function RoundMessage(c: LoopConfig, o: Observation): (r: Result<Message>)
    ensures c.kind != Latency ==> (r.Success? <==> o.message.Success?)
    ensures c.kind != Latency && r.Success? ==> r.value.body == o.message.value
    ensures c.kind != Latency && r.Failure? ==> r.error == o.message.error
    ensures c.kind == Latency ==> r.Success? && r.value.body == Serialized(LatencyProbeBody(c.host, c.deviceId, o.utcStamp))
    ensures r.Success? ==> (r.value.propertyKey, r.value.propertyValue) == MessageProperty(c.kind)
    ensures r.Success? ==> r.value.encoding == EncodingOf(c.kind)
  {
    var (key, value) := MessageProperty(c.kind);
    if c.kind == Latency then
      Success(Message(Serialized(LatencyProbeBody(c.host, c.deviceId, o.utcStamp)), Ascii, key, value))
    else
      match o.message
      case Success(body) => Success(Message(body, EncodingOf(c.kind), key, value))
      case Failure(e) => Failure(e)
  }

  /** The seconds the round waits: the telemetry loop reads the field, the
      others use their argument. */
  function IntervalOf(c: LoopConfig, o: Observation): Int32 {
    if c.kind == Telemetry then o.intervalSeen else c.interval
  }

  /** Task.Delay(interval * 1000): the product wraps as an unchecked int;
      a delay below -1 throws, -1 waits forever. */
  function DelayOutcome(interval: Int32): (n: AfterSend)
    ensures n == Continue <==> Wrap32(interval * 1000) >= 0
    ensures n == WaitForever <==> Wrap32(interval * 1000) == -1
    ensures n.DelayFault? <==> Wrap32(interval * 1000) < -1
    ensures n.DelayFault? ==> n.error == ArgumentOutOfRange("millisecondsDelay")
    ensures 0 <= interval <= 2147483 ==> n == Continue
  {
    var ms := Wrap32(interval * 1000);
    if ms >= 0 then Continue
    else if ms == -1 then WaitForever
    else DelayFault(ArgumentOutOfRange("millisecondsDelay"))
  }

  /** One round: message, send, then (latency loop only) a one-shot exit
      when the interval is not positive, then the stop flag, then the
      delay. */
  function RoundOf(c: LoopConfig, o: Observation): Round {
    match RoundMessage(c, o)
    case Failure(e) => NotSent(e)
    case Success(m) =>
      match o.send
      case Throw(e) => NotSent(e)
      case Pass =>
        if c.kind == Latency && c.interval <= 0 then Sent(m, Break)
        else if o.stopSeen then Sent(m, Break)
        else
          Sent(m, DelayOutcome(IntervalOf(c, o)))
  }

  /** A round sends exactly when its message is built and the send
      returns; it then breaks on the one-shot latency loop or a raised stop
      flag, and otherwise goes by the delay. A round that does not send
      carries the message's exception or the send's. */
  lemma RoundCases(c: LoopConfig, o: Observation)
    ensures RoundOf(c, o).Sent? <==> RoundMessage(c, o).Success? && o.send == Pass
    ensures RoundOf(c, o).Sent? ==> RoundOf(c, o).message == RoundMessage(c, o).value
    ensures RoundOf(c, o).Sent? ==> (RoundOf(c, o).next == Break <==> (c.kind == Latency && c.interval <= 0) || o.stopSeen)
    ensures RoundOf(c, o).Sent? && !(c.kind == Latency && c.interval <= 0) && !o.stopSeen ==>
              RoundOf(c, o).next == DelayOutcome(IntervalOf(c, o))
    ensures RoundOf(c, o).NotSent? && RoundMessage(c, o).Failure? ==> RoundOf(c, o).error == RoundMessage(c, o).error
    ensures RoundOf(c, o).NotSent? && RoundMessage(c, o).Success? ==> o.send == Throw(RoundOf(c, o).error)
  {
  }

  // ---------------------------------------------------------------------
  // The whole loop
  // ---------------------------------------------------------------------

  /** How a round that sent its message ends the loop, when it does. */
  function EndOf(next: AfterSend): LoopEnd {
    match next
    case Break => Stopped
    case DelayFault(err) => Faulted(err)
    case _ => Running
  }

  /** The loop over the rounds `obs`, from counter value `counter`. */
  function RunFrom(c: LoopConfig, obs: seq<Observation>, counter: Option<int>): LoopRun
    decreases |obs|
  {
    if |obs| == 0 then LoopRun([], counter, Running)
    else
      var round := RoundOf(c, obs[0]);
      if round.NotSent? then LoopRun([], counter, Faulted(round.error))
      else
        var counted := Bump(counter, CounterStep(c.host, c.kind));
        if round.next == Continue then
          var rest := RunFrom(c, obs[1..], counted);
          rest.(sent := [round.message] + rest.sent)
        else LoopRun([round.message], counted, EndOf(round.next))
  }

  /** The loop as started. */
  function Run(c: LoopConfig, obs: seq<Observation>): LoopRun {
    RunFrom(c, obs, CounterStart(c.host, c.kind))
  }

  /** `prefix` placed before a run's messages. */
  function After(prefix: seq<Message>, r: LoopRun): (a: LoopRun)
    ensures a.sent == prefix + r.sent && a.counter == r.counter && a.end == r.end
  {
    r.(sent := prefix + r.sent)
  }

  lemma AfterNothing(r: LoopRun)
    ensures After([], r) == r
  {
    assert [] + r.sent == r.sent;
  }

  lemma AfterTwice(p: seq<Message>, q: seq<Message>, r: LoopRun)
    ensures After(p, After(q, r)) == After(p + q, r)
  {
    assert p + (q + r.sent) == (p + q) + r.sent;
  }

  /** One round of the loop, unfolded at position i. */
  lemma RunFromStep(c: LoopConfig, obs: seq<Observation>, i: nat, counter: Option<int>)
    requires i < |obs|
    ensures var round := RoundOf(c, obs[i]);
            var counted := Bump(counter, CounterStep(c.host, c.kind));
            RunFrom(c, obs[i..], counter) ==
              if round.NotSent? then LoopRun([], counter, Faulted(round.error))
              else if round.next == Continue then After([round.message], RunFrom(c, obs[i + 1..], counted))
              else LoopRun([round.message], counted, EndOf(round.next))
  {
    assert obs[i..][0] == obs[i];
    assert obs[i..][1..] == obs[i + 1..];
  }

  /** The loop itself: each round sends, counts, then breaks, faults or
      waits and goes round again. */
  method Publish(c: LoopConfig, obs: seq<Observation>) returns (run: LoopRun)
    requires LoopExists(c.host, c.kind)
    ensures run == Run(c, obs)
  {
    var sent: seq<Message> := [];
    var counter := CounterStart(c.host, c.kind);
    var i := 0;
    assert obs[0..] == obs;
    AfterNothing(Run(c, obs));
    while i < |obs|
      invariant 0 <= i <= |obs|
      invariant Run(c, obs) == After(sent, RunFrom(c, obs[i..], counter))
    {
      RunFromStep(c, obs, i, counter);
      var o := obs[i];
      var message := RoundMessage(c, o);
      if message.Failure? {
        return LoopRun(sent, counter, Faulted(message.error));
      }
      if o.send.Throw? {
        return LoopRun(sent, counter, Faulted(o.send.error));
      }
      sent := sent + [message.value];
      counter := Bump(counter, CounterStep(c.host, c.kind));
      if c.kind == Latency && c.interval <= 0 {
        return LoopRun(sent, counter, Stopped);
      }
      if o.stopSeen {
        return LoopRun(sent, counter, Stopped);
      }
      var delay := DelayOutcome(IntervalOf(c, o));
      if delay.DelayFault? {
        return LoopRun(sent, counter, Faulted(delay.error));
      }
      if delay == WaitForever {
        return LoopRun(sent, counter, Running);
      }
      AfterTwice(sent[..|sent| - 1], [message.value], RunFrom(c, obs[i + 1..], counter));
      assert sent[..|sent| - 1] + [message.value] == sent;
      i := i + 1;
    }
    assert obs[i..] == [];
    assert sent + [] == sent;
    return LoopRun(sent, counter, Running);
  }

  // ---------------------------------------------------------------------
  // Properties of the loop
  // ---------------------------------------------------------------------

  /** The counter counts the sends: it ends at its start plus one step per
      message sent. */
  lemma {:induction false} CounterCountsSends(c: LoopConfig, obs: seq<Observation>, start: int)
    ensures RunFrom(c, obs, Some(start)).counter ==
            Some(start + CounterStep(c.host, c.kind) * |RunFrom(c, obs, Some(start)).sent|)
    ensures RunFrom(c, obs, None).counter == None
    decreases |obs|
  {
    if |obs| > 0 {
      var step := CounterStep(c.host, c.kind);
      CounterCountsSends(c, obs[1..], start + step);
      match RoundOf(c, obs[0])
      case NotSent(_) =>
      case Sent(m, next) =>
        if next == Continue {
          var rest := RunFrom(c, obs[1..], Some(start + step));
          assert |[m] + rest.sent| == 1 + |rest.sent|;
          assert start + step + step * |rest.sent| == start + step * (1 + |rest.sent|);
        }
    }
  }

  /** A loop that broke out did so after a send: every stop is preceded by
      at least one message. */
  lemma {:induction false} StoppedAfterSend(c: LoopConfig, obs: seq<Observation>, counter: Option<int>)
    ensures RunFrom(c, obs, counter).end == Stopped ==> |RunFrom(c, obs, counter).sent| >= 1
    decreases |obs|
  {
    if |obs| > 0 {
      StoppedAfterSend(c, obs[1..], Bump(counter, CounterStep(c.host, c.kind)));
    }
  }

  /** A round that sends and goes on to the next round. */
  predicate Continues(c: LoopConfig, o: Observation) {
    RoundOf(c, o).Sent? && RoundOf(c, o).next == Continue
  }

  /** When rounds 0..k-1 go through and round k sends and then sees the
      stop flag (or is a one-shot latency round), the loop stops with
      exactly k+1 messages, the message of each round in order. */
  lemma {:induction false} StopsAtFirstStop(c: LoopConfig, obs: seq<Observation>, counter: Option<int>, k: nat)
    requires k < |obs|
    requires forall j :: 0 <= j < k ==> Continues(c, obs[j])
    requires RoundOf(c, obs[k]).Sent? && RoundOf(c, obs[k]).next == Break
    ensures var r := RunFrom(c, obs, counter);
            r.end == Stopped && |r.sent| == k + 1 &&
            forall j :: 0 <= j <= k ==> RoundOf(c, obs[j]).Sent? && r.sent[j] == RoundOf(c, obs[j]).message
    decreases k
  {
    if k > 0 {
      var counted := Bump(counter, CounterStep(c.host, c.kind));
      assert Continues(c, obs[0]);
      forall j | 0 <= j < k - 1 ensures Continues(c, obs[1..][j]) {
        assert obs[1..][j] == obs[j + 1];
      }
      assert obs[1..][k - 1] == obs[k];
      StopsAtFirstStop(c, obs[1..], counted, k - 1);
      var rest := RunFrom(c, obs[1..], counted);
      var r := RunFrom(c, obs, counter);
      assert r.sent == [RoundOf(c, obs[0]).message] + rest.sent;
      forall j | 0 <= j <= k ensures RoundOf(c, obs[j]).Sent? && r.sent[j] == RoundOf(c, obs[j]).message {
        assert j < k ==> Continues(c, obs[j]);
        if j > 0 {
          assert r.sent[j] == rest.sent[j - 1];
          assert obs[1..][j - 1] == obs[j];
        }
      }
    }
  }

  /** When rounds 0..k-1 go through and round k cannot send (no message or
      a failed send), the loop's task faults with that exception after k
      messages: a send failure is not caught. */
  lemma {:induction false} FaultsAtFirstFailure(c: LoopConfig, obs: seq<Observation>, counter: Option<int>, k: nat)
    requires k < |obs|
    requires forall j :: 0 <= j < k ==> Continues(c, obs[j])
    requires RoundOf(c, obs[k]).NotSent?
    ensures var r := RunFrom(c, obs, counter);
            r.end == Faulted(RoundOf(c, obs[k]).error) && |r.sent| == k
    decreases k
  {
    if k > 0 {
      assert Continues(c, obs[0]);
      forall j | 0 <= j < k - 1 ensures Continues(c, obs[1..][j]) {
        assert obs[1..][j] == obs[j + 1];
      }
      assert obs[1..][k - 1] == obs[k];
      FaultsAtFirstFailure(c, obs[1..], Bump(counter, CounterStep(c.host, c.kind)), k - 1);
    }
  }

  /** The latency loop with an interval of 0 or less sends exactly one
      probe, stamped with the first round's time, whatever the stop flag
      says. */
  lemma LatencyIsOneShot(c: LoopConfig, obs: seq<Observation>)
    requires c.kind == Latency && c.interval <= 0 && LoopExists(c.host, c.kind)
    requires |obs| > 0 && obs[0].send == Pass
    ensures Run(c, obs) == LoopRun([Message(Serialized(LatencyProbeBody(c.host, c.deviceId, obs[0].utcStamp)),
                                            Ascii, "messagetype", "latency")], CounterStart(c.host, c.kind), Stopped)
  {
    var round := RoundOf(c, obs[0]);
    assert round.Sent? && round.next == Break;
    assert CounterStart(c.host, c.kind) == None;
  }

  /** A fixed interval whose millisecond count wraps below -1 faults the
      loop on its first delay, after one message. */
  lemma NegativeDelayFaults(c: LoopConfig, obs: seq<Observation>)
    requires c.kind != Telemetry && !(c.kind == Latency && c.interval <= 0)
    requires Wrap32(c.interval * 1000) < -1
    requires |obs| > 0 && RoundMessage(c, obs[0]).Success? && obs[0].send == Pass && !obs[0].stopSeen
    ensures Run(c, obs).end == Faulted(ArgumentOutOfRange("millisecondsDelay")) && |Run(c, obs).sent| == 1
  {
  }

  /** Two observation sequences that differ only in the interval field's
      value: only the telemetry loop can tell them apart. */
  predicate SameButInterval(obs1: seq<Observation>, obs2: seq<Observation>) {
    |obs1| == |obs2| &&
    forall j :: 0 <= j < |obs1| ==> obs1[j].(intervalSeen := 0) == obs2[j].(intervalSeen := 0)
  }

  /** The error, commissioning and latency loops use their fixed argument:
      changing `_telemetryInterval` while they run changes nothing. */
  lemma {:induction false} FixedIntervalIgnoresField(c: LoopConfig, obs1: seq<Observation>, obs2: seq<Observation>,
                                                     counter: Option<int>)
    requires c.kind != Telemetry && SameButInterval(obs1, obs2)
    ensures RunFrom(c, obs1, counter) == RunFrom(c, obs2, counter)
    decreases |obs1|
  {
    if |obs1| > 0 {
      RoundIgnoresField(c, obs1[0], obs2[0]);
      SameButIntervalTail(obs1, obs2);
      FixedIntervalIgnoresField(c, obs1[1..], obs2[1..], Bump(counter, CounterStep(c.host, c.kind)));
    }
  }

  /** Outside the telemetry loop, a round does not depend on the interval
      field. */
  lemma RoundIgnoresField(c: LoopConfig, o1: Observation, o2: Observation)
    requires c.kind != Telemetry && o1.(intervalSeen := 0) == o2.(intervalSeen := 0)
    ensures RoundOf(c, o1) == RoundOf(c, o2)
  {
    assert o1.message == o2.message && o1.utcStamp == o2.utcStamp && o1.send == o2.send && o1.stopSeen == o2.stopSeen;
    assert RoundMessage(c, o1) == RoundMessage(c, o2);
    assert IntervalOf(c, o1) == IntervalOf(c, o2);
  }

  lemma SameButIntervalTail(obs1: seq<Observation>, obs2: seq<Observation>)
    requires SameButInterval(obs1, obs2) && |obs1| > 0
    ensures obs1[0].(intervalSeen := 0) == obs2[0].(intervalSeen := 0)
    ensures SameButInterval(obs1[1..], obs2[1..])
  {
    forall j | 0 <= j < |obs1[1..]| ensures obs1[1..][j].(intervalSeen := 0) == obs2[1..][j].(intervalSeen := 0) {
      assert obs1[1..][j] == obs1[j + 1] && obs2[1..][j] == obs2[j + 1];
    }
  }
}
