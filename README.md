# Serial-to-MQTT bridge: a verified model

This project models the two halves of a small bridge that reads sensor lines
from a serial device and publishes them to an MQTT broker.

- **The serial handler** (`SerialHandler`) holds a routing table from sensor
  ids to topics. It also holds an error channel: an optional error topic and
  an optional error callback. Its read loop takes each raw line from the
  device and does four things:
  - decodes the line (a line that does not decode is skipped);
  - removes one trailing `"\r\n"`, or failing that one `"\n"`;
  - classifies it as an error report (it starts with `"error"`), a sensor
    reading (`"sensor <id> <value>"`, split on the first two spaces) or
    anything else;
  - dispatches it.

  An error report goes to the callback and then to the error topic, each
  only when it is set. A reading is published to its sensor's topic, when
  the sensor is routed. Anything else is dropped.
- **The MQTT client** checks its constructor arguments, with the port
  defaulting to 1883. It draws a random client id in `0..131071` that no
  live client holds, and names itself `python-` followed by the id in
  upper-case hexadecimal, padded to four digits. It then files itself in a
  registry shared by all clients, with `setdefault` semantics.

The modules are:

- `Values` (values.dfy): optional values, results carrying the exception
  kind, and dynamically typed arguments.
- `Protocol` (protocol.dfy): the pure part of the line pipeline. This is the
  ASCII codec, terminator removal, Python's `str.split(sep, maxsplit)` with
  its inverse `Join`, and line classification.
- `MqttClient` (client.dfy): the constructor checks and the client name.
  The `Client` class has a log of what it publishes. The `Registry` class
  allocates ids and registers clients.
- `Serial` (serial.dfy): the meaning of a line and of a run of lines, as
  functions (`LineOutput`, `RunOutput`), and the `SerialHandler` class whose
  methods are proved against them.

Publishing is modelled as appending `(topic, payload)` to the client's
`published` log. Calling the error callback is modelled as appending
`(callback, message)` to the handler's `callbackLog`. The infinite read loop
becomes `Run`, a loop over a finite sequence of raw lines. The device's codec
is a parameter `decode`. The default ASCII codec is modelled exactly
(`AsciiDecode`). The random id draws are a parameter `draws`, a sequence of
successive draws of which at least one is free.

## Model

| member | source | states |
|---|---|---|
| Serial.CheckHandlerArgs | mqtt/serial.py:15-34 | an omitted baud rate is 9600, so it never fails the checks; the handler succeeds exactly when the port is a string, the baud rate an integer above zero and the encoding absent or a string; a baud rate of zero or below (with well-typed arguments) is exactly the ValueError case, every other failure is TypeError; an absent encoding becomes "ascii" |
| Serial.NewSerialHandler | mqtt/serial.py:15-52 | the constructor fails exactly as the checks say; on success the handler keeps the client and the chosen encoding, with an empty routing table, no error topic, no callback and nothing logged |
| Serial.SerialHandler.constructor | mqtt/serial.py:47-52 | the initial field values: given client and encoding, empty table, no error topic, no error callback |
| Serial.Rerouted | mqtt/serial.py:54-61 | after setting a route the sensor maps to the topic; after clearing it the sensor is absent; every other sensor keeps its entry or its absence |
| Serial.LastRouteWins | mqtt/serial.py:60-61 | routing a sensor twice is the same as routing it once to the second topic |
| Serial.RemovalIdempotent | mqtt/serial.py:55-59 | clearing a route twice equals clearing it once, and clearing an absent route changes nothing |
| Serial.SerialHandler.Route | mqtt/serial.py:54-61 | the table becomes `Rerouted` of the old table, and the error channel and the callback log are unchanged |
| Serial.SerialHandler.SetErrorTopic | mqtt/serial.py:63-67 | succeeds exactly for None or a string and then sets the topic to it; otherwise TypeError and the topic is unchanged; the other fields never change |
| Serial.SerialHandler.SetErrorCallback | mqtt/serial.py:69-73 | succeeds exactly for None or a callable and then sets the callback to it; otherwise TypeError and the callback is unchanged; the other fields never change |
| Protocol.AsciiDecode | mqtt/serial.py:81-87 | ASCII decoding succeeds exactly when every byte is below 128, and then each character has its byte's code |
| Protocol.DecodeEncode | mqtt/serial.py:81-87 | decoding the encoding of an ASCII text gives the text back |
| Protocol.EncodeDecode | mqtt/serial.py:81-87 | encoding a decoded ASCII line gives the bytes back |
| Protocol.StripTerminator | mqtt/serial.py:89-92 | the result is a prefix of the line and what is cut is "", "\n" or "\r\n"; a trailing "\r\n" is cut whole; nothing is cut only when the line does not end in "\n" |
| Protocol.TerminatorAgnostic | mqtt/serial.py:89-92 | a body not ending in "\r" comes back unchanged after "\r\n" or "\n" is appended and stripped, and a body without a trailing "\n" is left alone |
| Protocol.IndexOfFirst | mqtt/serial.py:98 | the search for the separator fails exactly when it is absent, and otherwise finds its first occurrence |
| Protocol.Split | mqtt/serial.py:98 | `split(sep, maxsplit)` yields between 1 and maxsplit+1 parts; no part but the last holds the separator, and the last holds it only if all maxsplit splits were made |
| Protocol.JoinOfSplit | mqtt/serial.py:98 | the parts of a split, joined with the separator, give the line back |
| Protocol.SplitOfJoin | mqtt/serial.py:98 | any parts of the shape a split produces are exactly what splitting their join gives, so Split and Join are inverse |
| Protocol.Classify | mqtt/serial.py:94-104 | a line is an error report exactly when it starts with "error", and the report carries the whole line; a reading has a space-free sensor id and the line is exactly "sensor " + id + " " + value |
| Protocol.SensorLineClassified | mqtt/serial.py:96-104 | conversely, every line "sensor " + id + " " + value with a space-free id is that reading, with the value keeping any further spaces |
| Protocol.SpacelessLineMalformed | mqtt/serial.py:96-101 | a non-error line without any space does not unpack into three fields and is dropped |
| Serial.ErrorOutput | mqtt/serial.py:106-110 | the intended error step: the line is passed to the callback when one is set, and published to the error topic when one is set (no contract of its own; its properties are `Serial.ErrorReportForwarded`) |
| Serial.ReadingOutput | mqtt/serial.py:112-115 | a reading is published once to its sensor's topic when the sensor is routed, and dropped otherwise (no contract of its own; see `Serial.SensorReadingDispatched`) |
| Serial.Respond | mqtt/serial.py:94-104 | the dispatch of a classified line: error reports to the error channel, readings to their topic, anything else dropped (no contract of its own; see `Serial.ErrorReportForwarded`, `Serial.SensorReadingDispatched`, `Serial.OtherLinesAtMostOnePublication`) |
| Serial.LineOutput | mqtt/serial.py:80-104 | one pass of the loop: a line that does not decode does nothing, otherwise its terminator is removed and it is dispatched (no contract of its own; see `Serial.TerminatorAgnosticLine`, `Serial.NonAsciiLineIgnored`, `Serial.SerialHandler.HandleLine`) |
| Serial.RunOutput | mqtt/serial.py:79-104 | the effects of a sequence of lines, in order (no contract of its own; see `Serial.RunOutputAppend`, `Serial.UndecodableLineSkipped`, `Serial.SerialHandler.Run`) |
| Serial.ErrorReportForwarded | mqtt/serial.py:94-95 | an error report calls the callback with the whole line exactly when one is set, and publishes the whole line to the error topic exactly when one is set |
| Serial.SensorReadingDispatched | mqtt/serial.py:103-104 | a reading publishes exactly its value to its sensor's topic when the sensor is routed, and does nothing otherwise |
| Serial.OtherLinesAtMostOnePublication | mqtt/serial.py:96-104 | a non-error line never calls the callback and publishes at most once; when it publishes, the line is a reading of a routed sensor and the one message is its value on that sensor's topic |
| Serial.TerminatorAgnosticLine | mqtt/serial.py:80-92 | on the wire, a line ending in "\r\n" and the same line ending in "\n" do the same thing as the bare line |
| Serial.NonAsciiLineIgnored | mqtt/serial.py:83-87 | under ASCII, a line with any byte of 128 or more does nothing |
| Serial.RunOutputSnoc | mqtt/serial.py:79-104 | handling one more line adds exactly that line's effect after what the earlier lines did |
| Serial.RunOutputAppend | mqtt/serial.py:79-104 | handling two batches one after the other is the same as handling them as one batch |
| Serial.ThenAssociative | mqtt/serial.py:79-104 | combining the effects of successive lines does not depend on grouping |
| Serial.UndecodableLineSkipped | mqtt/serial.py:83-87 | a line that does not decode leaves the effect of the whole run as if it had never been read; the lines after it are still handled |
| Serial.ReroutedReadingGoesToLastTopic | mqtt/serial.py:60-61 | after a sensor is routed to one topic and then to another, its next reading is published only to the second |
| Serial.SerialHandler.HandleError | mqtt/serial.py:106-110 | the callback log grows by the callback call when one is set, the client's log by the error-topic publication when one is set, and the configuration is unchanged |
| Serial.SerialHandler.HandleReading | mqtt/serial.py:112-115 | the client's log grows by exactly the reading's publication when the sensor is routed, and by nothing otherwise |
| Serial.SerialHandler.HandleLine | mqtt/serial.py:77-104 | decoding with the codec of the handler's encoding (ASCII for the default), one pass of the read loop adds exactly `LineOutput` of the raw line to the two logs and leaves the configuration unchanged |
| Serial.SerialHandler.Run | mqtt/serial.py:75-104 | decoding with the codec of the handler's encoding (ASCII for the default), the read loop over a sequence of lines adds exactly `RunOutput` of the sequence to the two logs and leaves the routing table and the error channel unchanged |
| Serial.LineAsWritten | mqtt/serial.py:80-115 | the per-line step as the code stands: an error report raises AttributeError at the unassigned `_callback`, a routed reading raises NameError at the undefined `topic` in the client's publish (mqtt/client.py:104-105), and every other line does nothing; see Findings |
| Serial.AsWrittenNeverDelivers | mqtt/serial.py:107-108 | as written, a line either raises or does nothing, and every line that should deliver something raises |
| Serial.RoutedReadingRaisesAsWritten | mqtt/client.py:104-105 | a routed reading sent as "sensor id value\n" raises NameError as written, whereas the intended step publishes the value to the sensor's topic |
| Serial.ErrorReportRaisesAsWritten | mqtt/serial.py:106-110 | an error report sent with "\n" raises AttributeError as written, whereas the intended step forwards it to the error channel |
| MqttClient.CheckClientArgs | mqtt/client.py:56-65 | an absent port becomes 1883; the constructor proceeds exactly when the broker is a string and the port a positive integer, every other case raises TypeError (a port of zero or below included), and the effective port is returned |
| MqttClient.Hex | mqtt/client.py:75 | upper-case hexadecimal has at least one digit, only the digits 0-9 and A-F, and no leading zero for a positive number |
| MqttClient.Hex04 | mqtt/client.py:75 | the `04X` format has length max(4, digits) and uses only upper-case hex digits |
| MqttClient.ClientName | mqtt/client.py:75 | the client name starts with "python-" and has at least four digits after it |
| MqttClient.ParseHexOfHex | mqtt/client.py:75 | reading back the hexadecimal of n gives n |
| MqttClient.ParseHexLeadingZeros | mqtt/client.py:75 | zero padding does not change the value |
| MqttClient.ClientNameParsesBack | mqtt/client.py:75 | the digits of a client name read back as its id |
| MqttClient.ClientNamesDistinct | mqtt/client.py:75 | distinct ids give distinct client names |
| MqttClient.HexLength | mqtt/client.py:50 | a number below 16^k has at most k hexadecimal digits |
| MqttClient.ClientNameLength | mqtt/client.py:50 | since ids are at most 131071, a client name is 11 or 12 characters long |
| MqttClient.Client.constructor | mqtt/client.py:68-75 | the client keeps its id, broker and port, is named `ClientName(id)` and has published nothing |
| MqttClient.Client.Publish | mqtt/client.py:104-105 | publishing appends exactly `(topic, payload)` to the client's log |
| MqttClient.Registry.constructor | mqtt/client.py:53 | the registry starts empty and valid |
| MqttClient.Registry.GenerateId | mqtt/client.py:85-92 | the returned id is in 0..131071 (its type), not held by any registered client, and is the first free draw; the registry is not modified |
| MqttClient.Registry.Register | mqtt/client.py:80-83 | `setdefault` succeeds exactly when the id is free or already holds this client; on success only that entry is set, on failure nothing changes; validity is kept |
| MqttClient.Registry.Connect | mqtt/client.py:55-83 | bad arguments raise TypeError and leave the registry alone; otherwise a fresh client with a previously unheld id, the given broker, the effective port and its name is filed under its id, nothing else in the table changes, and validity is kept |
| MqttClient.RegisteredNamesDistinct | mqtt/client.py:68-92 | over any sequence of registrations, the registered ids, and hence the client names, are pairwise distinct |

## Left out

- The broker library (paho) is left out: creating its client, `connect`, `subscribe`, `loop_start` and `loop_forever` (mqtt/client.py:75-77, 101-111). Publishing is an append to `Client.published`, and the client name is kept as a field. A refused connection raises out of the constructor at mqtt/client.py:77, before registration, so the registry is left unchanged; `MqttClient.Registry.Connect` does not model this failure and always succeeds on good arguments.
- The `on_connect` callback (mqtt/client.py:94-97) is not modelled; it only prints an error.
- Importing PySerial and opening the device (mqtt/serial.py:36-45) are not modelled. These are device I/O; `SerialHandler` never holds a device. The misspelled exception module `seria` at mqtt/serial.py:44 lies on this path and is not modelled either.
- The `isinstance(client, MQTTClient)` check (mqtt/serial.py:19-22) is enforced by the type of the `client` parameter, so its TypeError case is not represented.
- Encodings other than ASCII: `Run` and `LineOutput` take the codec as a function `decode`. Only ASCII is modelled concretely, and `Run` requires it when the handler has the default encoding.
- The baud rate is used only to open the device, so the handler does not keep it; only its checks and its default of 9600 are modelled.
- `read_until` returning `str` rather than `bytes` (older PySerial, mqtt/serial.py:81) is not modelled; every line arrives as bytes.
- The unending `while True` loop, its end by interrupt, and the broker library's background thread are not modelled. `Run` handles a finite sequence of lines.
- Serial.SerialHandler.HandleError: the callback log and the client's publication log are separate, so its contract does not state that the callback runs before the error-topic publication (mqtt/serial.py:107-110).
- Serial.ErrorOutput: its `calls` and `pubs` are separate sequences, so it does not record that the callback comes before the error-topic publication.
- Serial.SerialHandler.HandleLine: like `HandleError`, it does not record the order of the callback call and the publication within an error report.
- `Serial.SerialHandler.Run` keeps the callback log and the client's publication log separately, so it does not record how callback calls and publications interleave. Within an error report, the callback is called before the publication.
- The random distribution of `gerar_id_cliente` is not modelled. Draws are a parameter, and one of them must be free. The source loops forever when all 131072 ids are taken, and the model requires a free draw instead.
- `MqttClient.Registry.Connect`: the conflict branch of registration cannot be reached there, because the id was just drawn free. The model proves registration succeeds. `Register` models the branch on its own and reports failure as `false`, not as an exception.
- The class-wide dictionary `clientes` is a `Registry` object passed explicitly, not a global.
- `Serial.SerialHandler.Route` takes an optional string topic; the source stores any non-None value.
- Sensor keys are strings; the source would accept any hashable key.
- Python's `bool` counts as `int` in `isinstance`; the `Arg` type has no separate boolean, so `True` as a baud rate or port is not distinguished.
- The `exportado` decorator and `__all__` in both files, `mqtt/__init__.py` and `mqtt/__main__.py` are not part of this model. They are module plumbing and the command-line front end.
- The message text of every exception is not modelled; only its kind is.

Other deviations from the source:

- mqtt/client.py:83 formats the undefined name `id_` in the conflict message, so that branch would raise NameError instead of its intended exception. The branch is unreachable from the constructor (see above), so the model keeps the intended "registration fails and nothing changes".
- The comment at mqtt/client.py:49 says the id is 32 bits, but `(2 << 16) - 1` is 131071, a 17-bit range. The model follows the code: `MaxClientId` is 131071.

## Findings

| source | as written | input that shows it | evidently intended | confidence | as-written member | corrected member |
|---|---|---|---|---|---|---|
| mqtt/serial.py:107-108 | the error branch reads `self._callback`, an attribute nothing assigns (the setter fills `_callback_erros`), so it raises AttributeError before the callback or the error topic is used | any line starting with "error", e.g. the bytes of "error disk full\n" | call the callback stored by the error-callback setter, then publish to the error topic | not executed | Serial.ErrorReportRaisesAsWritten | Serial.ErrorReportForwarded |
| mqtt/client.py:104-105 | `publish` passes the undefined name `topic`, so every publication raises NameError and no reading or error-topic message is ever published | a routed sensor "T1" and the line "sensor T1 23.5\n" | publish to the `topico` argument | not executed | Serial.RoutedReadingRaisesAsWritten | Serial.SensorReadingDispatched |

`Serial.LineAsWritten` is the per-line step with both defects. `Serial.AsWrittenNeverDelivers` proves that, as written, no line delivers anything. The rest of the model uses the corrected step `Serial.LineOutput`, through `Serial.SerialHandler.HandleError` and `MqttClient.Client.Publish`.
