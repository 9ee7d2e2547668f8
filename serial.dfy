/** The serial handler: a routing table from sensor ids to topics, an error
    channel (an optional topic and an optional callback), and the loop that
    reads lines from the device and turns them into publications and
    callback invocations. */
module Serial {
  import opened Values
  import opened Protocol
  import opened MqttClient

  /** The ASCII codec is the one used when no encoding is given. */
  const DefaultEncoding := "ascii"

  const DefaultBaudrate := 9600

  /** One invocation of the error callback. */
  datatype Call = Call(callback: CallbackId, message: string)

  /** What handling some input does: the callback invocations and the
      publications it causes, each in order. */
  datatype Output = Output(calls: seq<Call>, pubs: seq<Publication>) {
    function Then(next: Output): Output {
      Output(calls + next.calls, pubs + next.pubs)
    }
  }

  const Silent := Output([], [])

  /** The part of the handler that decides what a line does. */
  datatype Config = Config(
    routes: map<string, string>,
    errorTopic: Option<string>,
    errorCallback: Option<CallbackId>)

  // ---------------------------------------------------------------------
  // Constructor argument checks

  /** The handler constructor's checks.  An omitted baud rate (None here)
      is 9600.  The port must be a string, the baud rate an integer and the
      encoding absent or a string (TypeError otherwise); then a baud rate of
      zero or below raises ValueError.  On success the encoding to use is
      returned, ASCII when none was given. */
  function CheckHandlerArgs(port: Arg, baudrate: Option<Arg>, encoding: Arg): (r: Result<string>)
    ensures var b := if baudrate.None? then Int(DefaultBaudrate) else baudrate.value;
      && (r.Ok? <==> port.Str? && b.Int? && (encoding.NoneArg? || encoding.Str?) && b.n > 0)
      && (r == Err(ValueError) <==> port.Str? && b.Int? && (encoding.NoneArg? || encoding.Str?) && b.n <= 0)
    ensures baudrate.None? ==> (r.Ok? <==> port.Str? && (encoding.NoneArg? || encoding.Str?))
    ensures r.Ok? ==> r.value == if encoding.Str? then encoding.s else DefaultEncoding
    ensures r.Err? ==> r.error == TypeError || r.error == ValueError
  {
    var b := if baudrate.None? then Int(DefaultBaudrate) else baudrate.value;
    if !port.Str? then Err(TypeError)
    else if !b.Int? then Err(TypeError)
    else if !(encoding.NoneArg? || encoding.Str?) then Err(TypeError)
    else if b.n <= 0 then Err(ValueError)
    else Ok(if encoding.Str? then encoding.s else DefaultEncoding)
  }

  // ---------------------------------------------------------------------
  // Routing table updates

  /** Sets the topic of `sensor`, or removes its entry when `topic` is None.
      Every other entry is kept as it was. */
  function Rerouted(routes: map<string, string>, sensor: string, topic: Option<string>)
    : (r: map<string, string>)
    ensures sensor in r <==> topic.Some?
    ensures topic.Some? ==> r[sensor] == topic.value
    ensures forall s :: s != sensor ==> (s in r <==> s in routes)
    ensures forall s :: s != sensor && s in r ==> r[s] == routes[s]
  {
    match topic
    case None => routes - {sensor}
    case Some(t) => routes[sensor := t]
  }

  /** The last write wins. */
  lemma LastRouteWins(routes: map<string, string>, sensor: string, first: Option<string>, second: Option<string>)
    ensures Rerouted(Rerouted(routes, sensor, first), sensor, second) == Rerouted(routes, sensor, second)
  {
  }

  /** Removing a sensor twice is the same as removing it once, and removing
      an absent sensor changes nothing. */
  lemma RemovalIdempotent(routes: map<string, string>, sensor: string)
    ensures Rerouted(Rerouted(routes, sensor, None), sensor, None) == Rerouted(routes, sensor, None)
    ensures sensor !in routes ==> Rerouted(routes, sensor, None) == routes
  {
  }

  // ---------------------------------------------------------------------
  // What one line does

  /** An error report goes first to the callback, if one is set, then to
      the error topic, if one is set. */
  function ErrorOutput(cfg: Config, message: string): Output
  {
    Output(
      if cfg.errorCallback.Some? then [Call(cfg.errorCallback.value, message)] else [],
      if cfg.errorTopic.Some? then [Publication(cfg.errorTopic.value, message)] else [])
  }

  /** A reading is published to its sensor's topic; an unrouted sensor's
      reading is dropped. */
  function ReadingOutput(cfg: Config, sensor: string, value: string): Output
  {
    if sensor in cfg.routes then Output([], [Publication(cfg.routes[sensor], value)]) else Silent
  }

  /** What a decoded, terminator-free line does. */
  function Respond(cfg: Config, line: string): Output
  {
    match Classify(line)
    case ErrorReport(message) => ErrorOutput(cfg, message)
    case SensorReading(sensor, value) => ReadingOutput(cfg, sensor, value)
    case Malformed => Silent
  }

  /** What one raw line from the device does under the codec `decode`: a
      line that does not decode does nothing. */
  function LineOutput(cfg: Config, decode: seq<Byte> -> Option<string>, raw: seq<Byte>): Output
  {
    match decode(raw)
    case None => Silent
    case Some(text) => Respond(cfg, StripTerminator(text))
  }

  /** What a sequence of raw lines does, line after line. */
  function RunOutput(cfg: Config, decode: seq<Byte> -> Option<string>, raws: seq<seq<Byte>>): Output
    decreases |raws|
  {
    if raws == [] then Silent
    else RunOutput(cfg, decode, raws[..|raws| - 1]).Then(LineOutput(cfg, decode, raws[|raws| - 1]))
  }

  // ---------------------------------------------------------------------
  // Properties of the line semantics

  /** An error report is forwarded whole: to the callback when one is set,
      to the error topic when one is set, both, either or neither. */
  lemma ErrorReportForwarded(cfg: Config, line: string)
    requires StartsWith(line, "error")
    ensures Respond(cfg, line).calls ==
      (if cfg.errorCallback.Some? then [Call(cfg.errorCallback.value, line)] else [])
    ensures Respond(cfg, line).pubs ==
      (if cfg.errorTopic.Some? then [Publication(cfg.errorTopic.value, line)] else [])
  {
  }

  /** A line "sensor <id> <value>" publishes exactly `value` (spaces and all)
      to the topic of `id` when `id` is routed, and nothing otherwise; it
      never reaches the error channel. */
  lemma SensorReadingDispatched(cfg: Config, sensor: string, value: string)
    requires ' ' !in sensor
    ensures Respond(cfg, "sensor " + sensor + " " + value) ==
      if sensor in cfg.routes then Output([], [Publication(cfg.routes[sensor], value)]) else Silent
  {
    SensorLineClassified(sensor, value);
  }

  /** A line that is not an error report publishes at most one message and
      never calls the callback; when it publishes, it is a reading of a
      routed sensor and the message is the reading's value. */
  lemma OtherLinesAtMostOnePublication(cfg: Config, line: string)
    requires !StartsWith(line, "error")
    ensures Respond(cfg, line).calls == []
    ensures |Respond(cfg, line).pubs| <= 1
    ensures Respond(cfg, line).pubs != [] ==>
      var r := Classify(line);
      && r.SensorReading? && r.sensor in cfg.routes
      && line == "sensor " + r.sensor + " " + r.value
      && Respond(cfg, line).pubs == [Publication(cfg.routes[r.sensor], r.value)]
  {
  }

  /** A line whose raw bytes end in "\r\n" does what the same line ending in
      "\n" does, and both do what the line without terminator does. */
  lemma TerminatorAgnosticLine(cfg: Config, body: string)
    requires IsAsciiText(body)
    requires body == [] || body[|body| - 1] != '\r'
    ensures IsAsciiText(body + "\r\n") && IsAsciiText(body + "\n")
    ensures LineOutput(cfg, AsciiDecode, AsciiEncode(body + "\r\n")) == Respond(cfg, body)
    ensures LineOutput(cfg, AsciiDecode, AsciiEncode(body + "\n")) == Respond(cfg, body)
  {
    assert IsAsciiText(body + "\r\n");
    assert IsAsciiText(body + "\n");
    DecodeEncode(body + "\r\n");
    DecodeEncode(body + "\n");
    TerminatorAgnostic(body);
  }

  /** A byte with its high bit set makes the line undecodable under ASCII. */
  lemma NonAsciiLineIgnored(cfg: Config, raw: seq<Byte>, i: nat)
    requires i < |raw| && raw[i] >= 128
    ensures LineOutput(cfg, AsciiDecode, raw) == Silent
  {
  }

  lemma RunOutputSnoc(cfg: Config, decode: seq<Byte> -> Option<string>, raws: seq<seq<Byte>>, raw: seq<Byte>)
    ensures RunOutput(cfg, decode, raws + [raw]) == RunOutput(cfg, decode, raws).Then(LineOutput(cfg, decode, raw))
  {
    assert (raws + [raw])[..|raws|] == raws;
  }

  /** Handling two batches of lines one after the other does what handling
      them as one batch does. */
  lemma {:induction false} RunOutputAppend(cfg: Config, decode: seq<Byte> -> Option<string>, a: seq<seq<Byte>>, b: seq<seq<Byte>>)
    ensures RunOutput(cfg, decode, a + b) == RunOutput(cfg, decode, a).Then(RunOutput(cfg, decode, b))
    decreases |b|
  {
    if b == [] {
      assert a + b == a;
    } else {
      var b', x := b[..|b| - 1], b[|b| - 1];
      assert b == b' + [x];
      assert a + b == (a + b') + [x];
      var line := LineOutput(cfg, decode, x);
      calc {
        RunOutput(cfg, decode, a + b);
        == { RunOutputSnoc(cfg, decode, a + b', x); }
        RunOutput(cfg, decode, a + b').Then(line);
        == { RunOutputAppend(cfg, decode, a, b'); }
        RunOutput(cfg, decode, a).Then(RunOutput(cfg, decode, b')).Then(line);
        == { ThenAssociative(RunOutput(cfg, decode, a), RunOutput(cfg, decode, b'), line); }
        RunOutput(cfg, decode, a).Then(RunOutput(cfg, decode, b').Then(line));
        == { RunOutputSnoc(cfg, decode, b', x); }
        RunOutput(cfg, decode, a).Then(RunOutput(cfg, decode, b));
      }
    }
  }

  lemma ThenAssociative(x: Output, y: Output, z: Output)
    ensures x.Then(y).Then(z) == x.Then(y.Then(z))
  {
    assert x.calls + y.calls + z.calls == x.calls + (y.calls + z.calls);
    assert x.pubs + y.pubs + z.pubs == x.pubs + (y.pubs + z.pubs);
  }

  /** A line that does not decode is skipped and the lines after it are
      handled as if it had never been read. */
  lemma UndecodableLineSkipped(cfg: Config, decode: seq<Byte> -> Option<string>,
                               before: seq<seq<Byte>>, bad: seq<Byte>, after: seq<seq<Byte>>)
    requires decode(bad).None?
    ensures RunOutput(cfg, decode, before + [bad] + after) == RunOutput(cfg, decode, before + after)
  {
    calc {
      RunOutput(cfg, decode, before + [bad] + after);
      == { RunOutputAppend(cfg, decode, before + [bad], after); }
      RunOutput(cfg, decode, before + [bad]).Then(RunOutput(cfg, decode, after));
      == { RunOutputSnoc(cfg, decode, before, bad); }
      RunOutput(cfg, decode, before).Then(Silent).Then(RunOutput(cfg, decode, after));
      == { assert RunOutput(cfg, decode, before).Then(Silent) == RunOutput(cfg, decode, before); }
      RunOutput(cfg, decode, before).Then(RunOutput(cfg, decode, after));
      == { RunOutputAppend(cfg, decode, before, after); }
      RunOutput(cfg, decode, before + after);
    }
  }

  /** Re-routing a sensor to a second topic sends its next reading only
      there. */
  lemma ReroutedReadingGoesToLastTopic(cfg: Config, sensor: string, first: string, second: string, value: string)
    requires ' ' !in sensor
    ensures var cfg' := cfg.(routes := Rerouted(Rerouted(cfg.routes, sensor, Some(first)), sensor, Some(second)));
            Respond(cfg', "sensor " + sensor + " " + value) == Output([], [Publication(second, value)])
  {
    var cfg' := cfg.(routes := Rerouted(Rerouted(cfg.routes, sensor, Some(first)), sensor, Some(second)));
    SensorReadingDispatched(cfg', sensor, value);
  }

  // ---------------------------------------------------------------------
  // The source as written

  /** The per-line step as the code stands: the error branch reads an
      attribute `_callback` that no method assigns, which raises
      AttributeError, and the client's publish passes the undefined name
      `topic`, which raises NameError.  Either exception leaves the loop. */
  function LineAsWritten(cfg: Config, decode: seq<Byte> -> Option<string>, raw: seq<Byte>): Result<Output>
  {
    match decode(raw)
    case None => Ok(Silent)
    case Some(text) =>
      match Classify(StripTerminator(text))
      case ErrorReport(_) => Err(AttributeError)
      case SensorReading(sensor, _) => if sensor in cfg.routes then Err(NameError) else Ok(Silent)
      case Malformed => Ok(Silent)
  }

  /** As written, the handler never delivers anything: every line that
      should call back or publish raises instead. */
  lemma AsWrittenNeverDelivers(cfg: Config, decode: seq<Byte> -> Option<string>, raw: seq<Byte>)
    ensures LineAsWritten(cfg, decode, raw).Ok? ==> LineAsWritten(cfg, decode, raw).value == Silent
    ensures LineOutput(cfg, decode, raw) != Silent ==> LineAsWritten(cfg, decode, raw).Err?
  {
  }

  /** A routed reading: the intended step publishes it, the written one
      raises NameError. */
  lemma RoutedReadingRaisesAsWritten(cfg: Config, sensor: string, value: string)
    requires ' ' !in sensor && sensor in cfg.routes
    requires IsAsciiText(sensor) && IsAsciiText(value)
    requires value == [] || value[|value| - 1] != '\r'
    ensures IsAsciiText("sensor " + sensor + " " + value + "\n")
    ensures var raw := AsciiEncode("sensor " + sensor + " " + value + "\n");
            && LineAsWritten(cfg, AsciiDecode, raw) == Err(NameError)
            && LineOutput(cfg, AsciiDecode, raw) == Output([], [Publication(cfg.routes[sensor], value)])
  {
    var body := "sensor " + sensor + " " + value;
    assert body[|body| - 1] != '\r';
    assert IsAsciiText(body + "\n");
    DecodeEncode(body + "\n");
    TerminatorAgnostic(body);
    SensorLineClassified(sensor, value);
  }

  /** An error report: the intended step hands it to the callback and the
      error topic that are set, the written one raises AttributeError. */
  lemma ErrorReportRaisesAsWritten(cfg: Config, message: string)
    requires StartsWith(message, "error") && IsAsciiText(message)
    requires message[|message| - 1] != '\r'
    ensures IsAsciiText(message + "\n")
    ensures var raw := AsciiEncode(message + "\n");
            && LineAsWritten(cfg, AsciiDecode, raw) == Err(AttributeError)
            && LineOutput(cfg, AsciiDecode, raw) == ErrorOutput(cfg, message)
  {
    assert IsAsciiText(message + "\n");
    DecodeEncode(message + "\n");
    TerminatorAgnostic(message);
  }

  // ---------------------------------------------------------------------
  // The handler

  class SerialHandler {
    const client: MqttClient.Client
    const encoding: string
    var routes: map<string, string>
    var errorTopic: Option<string>
    var errorCallback: Option<CallbackId>
    /** The invocations of the error callback, in order. */
    var callbackLog: seq<Call>

    function CurrentConfig(): Config
      reads this
    {
      Config(routes, errorTopic, errorCallback)
    }

    /** What the handler has done so far: the callback invocations and the
        messages its client has published. */
    ghost function Logs(): Output
      reads this, client
    {
      Output(callbackLog, client.published)
    }

    /** A new handler: empty routing table, no error topic, no callback. */
    constructor (client: MqttClient.Client, encoding: string)
      ensures this.client == client && this.encoding == encoding
      ensures routes == map[] && errorTopic == None && errorCallback == None
      ensures callbackLog == []
    {
      this.client := client;
      this.encoding := encoding;
      routes := map[];
      errorTopic := None;
      errorCallback := None;
      callbackLog := [];
    }

    /** Routes `sensor` to `topic`, or removes its route when `topic` is None
        (removing an absent route is no error). */
    method Route(sensor: string, topic: Option<string>)
      modifies this
      ensures routes == Rerouted(old(routes), sensor, topic)
      ensures errorTopic == old(errorTopic) && errorCallback == old(errorCallback)
      ensures callbackLog == old(callbackLog)
    {
      if topic.None? {
        if sensor in routes {
          routes := routes - {sensor};
        }
      } else {
        routes := routes[sensor := topic.value];
      }
    }

    /** Sets or clears the error topic; anything but None or a string raises
        TypeError and leaves the topic as it was. */
    method SetErrorTopic(topic: Arg) returns (r: Outcome)
      modifies this
      ensures r == Pass <==> topic.NoneArg? || topic.Str?
      ensures r.Fail? ==> r.error == TypeError
      ensures errorTopic == (if topic.Str? then Some(topic.s)
                             else if topic.NoneArg? then None
                             else old(errorTopic))
      ensures routes == old(routes) && errorCallback == old(errorCallback)
      ensures callbackLog == old(callbackLog)
    {
      if topic.NoneArg? {
        errorTopic := None;
        r := Pass;
      } else if topic.Str? {
        errorTopic := Some(topic.s);
        r := Pass;
      } else {
        r := Fail(TypeError);
      }
    }

    /** Sets or clears the error callback; anything but None or a callable
        raises TypeError and leaves the callback as it was. */
    method SetErrorCallback(callback: Arg) returns (r: Outcome)
      modifies this
      ensures r == Pass <==> callback.NoneArg? || callback.Callable?
      ensures r.Fail? ==> r.error == TypeError
      ensures errorCallback == (if callback.Callable? then Some(callback.f)
                                else if callback.NoneArg? then None
                                else old(errorCallback))
      ensures routes == old(routes) && errorTopic == old(errorTopic)
      ensures callbackLog == old(callbackLog)
    {
      if callback.NoneArg? {
        errorCallback := None;
        r := Pass;
      } else if callback.Callable? {
        errorCallback := Some(callback.f);
        r := Pass;
      } else {
        r := Fail(TypeError);
      }
    }

    /** Forwards an error report to the callback and the error topic. */
    method HandleError(message: string)
      modifies this, client
      ensures CurrentConfig() == old(CurrentConfig())
      ensures callbackLog == old(callbackLog) + ErrorOutput(CurrentConfig(), message).calls
      ensures client.published == old(client.published) + ErrorOutput(CurrentConfig(), message).pubs
    {
      if errorCallback.Some? {
        callbackLog := callbackLog + [Call(errorCallback.value, message)];
      }
      if errorTopic.Some? {
        client.Publish(errorTopic.value, message);
      }
    }

    /** Publishes a reading to its sensor's topic, if the sensor is routed. */
    method HandleReading(sensor: string, value: string)
      modifies client
      ensures client.published == old(client.published) + ReadingOutput(CurrentConfig(), sensor, value).pubs
    {
      if sensor in routes {
        client.Publish(routes[sensor], value);
      }
    }

    /** The body of the read loop for one raw line: decode it (a line that
        does not decode is skipped), remove its terminator, and dispatch it
        as an error report or a sensor reading; anything else is ignored.
        `decode` is the codec named by `encoding`, ASCII for the default. */
    method HandleLine(raw: seq<Byte>, decode: seq<Byte> -> Option<string>)
      requires encoding == DefaultEncoding ==> decode == AsciiDecode
      modifies this, client
      ensures CurrentConfig() == old(CurrentConfig())
      ensures Logs() == old(Logs()).Then(LineOutput(CurrentConfig(), decode, raw))
    {
      var decoded := decode(raw);
      if decoded.Some? {
        var line := StripTerminator(decoded.value);
        if StartsWith(line, "error") {
          HandleError(line);
        } else {
          var fields := Split(line, ' ', 2);
          if |fields| == 3 && fields[0] == "sensor" {
            HandleReading(fields[1], fields[2]);
          }
        }
      }
    }

    /** The read loop over the lines the device delivers, one after the
        other, decoded with the codec named by `encoding`.  The routing table
        and the error channel do not change while it runs. */
    method Run(lines: seq<seq<Byte>>, decode: seq<Byte> -> Option<string>)
      requires encoding == DefaultEncoding ==> decode == AsciiDecode
      modifies this, client
      ensures CurrentConfig() == old(CurrentConfig())
      ensures Logs() == old(Logs()).Then(RunOutput(CurrentConfig(), decode, lines))
    {
      ghost var cfg, start := CurrentConfig(), Logs();
      ghost var done := Silent;
      var i := 0;
      while i < |lines|
        invariant 0 <= i <= |lines|
        invariant CurrentConfig() == cfg
        invariant done == RunOutput(cfg, decode, lines[..i])
        invariant Logs() == start.Then(done)
      {
        HandleLine(lines[i], decode);
        RunOutputSnoc(cfg, decode, lines[..i], lines[i]);
        ThenAssociative(start, done, LineOutput(cfg, decode, lines[i]));
        assert lines[..i + 1] == lines[..i] + [lines[i]];
        done := done.Then(LineOutput(cfg, decode, lines[i]));
        i := i + 1;
      }
      assert lines[..|lines|] == lines;
    }
  }

  /** The handler constructor: argument checks, then a handler with the
      given or default encoding, an empty routing table and no error
      channel.  Opening the device is not modelled. */
  method NewSerialHandler(client: MqttClient.Client, port: Arg, baudrate: Option<Arg>, encoding: Arg)
    returns (r: Result<SerialHandler>)
    ensures r.Ok? <==> CheckHandlerArgs(port, baudrate, encoding).Ok?
    ensures r.Err? ==> r.error == CheckHandlerArgs(port, baudrate, encoding).error
    ensures r.Ok? ==>
      && fresh(r.value)
      && r.value.client == client
      && r.value.encoding == CheckHandlerArgs(port, baudrate, encoding).value
      && r.value.CurrentConfig() == Config(map[], None, None)
      && r.value.callbackLog == []
  {
    var checked := CheckHandlerArgs(port, baudrate, encoding);
    if checked.Err? {
      return Err(checked.error);
    }
    var h := new SerialHandler(client, checked.value);
    r := Ok(h);
  }
}
