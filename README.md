# office-monitor, modelled in Dafny

office-monitor is a small home-monitoring system in three parts:

- an ESP32 sensor node (`monitor-iot`) publishes readings and alerts over MQTT;
- a Spring backend (`monitor-back`) ingests every MQTT message in `MqttService.handleMessage`;
- a React dashboard (`monitor-web`) shows what the backend broadcasts over WebSocket.

The ingestion step works like this:

- A topic beginning `home/status/` is a status message. Its JSON payload `{"temp": …, "hum": …}` is upserted into the `status` table under the device id, which is the third `/`-segment of the topic. The saved row is then broadcast on `/topic/status`.
- A topic beginning `home/alerts/` is an alert. One `Event` is appended, with `sensor` set to the third segment and both `type` and `payload` set to the raw payload. The event is then broadcast on `/topic/alerts`.
- Every exception is caught and logged. Nothing escapes `handleMessage`.

The model has five modules:

- `Topics`: Java's `String.split("/")`, which drops trailing empty strings, and the prefix routing. Lemmas show that splitting and joining are inverse to each other. Another lemma says exactly when `split("/")[2]` exists on a routed topic and what it is: the text after the prefix, up to the next slash.
- `Ingestion`: the class `MqttService`, with `store: map<string, Status>`, the append-only `log: seq<Event>`, the broadcasts `sent` and the identity counter of the events table.
  - Its methods follow `handleMessage`, `handleStatus` and `handleAlert` statement by statement, including the order in which the exceptions can arise.
  - Each method is specified by a value-level function (`StatusStep`, `AlertStep`, `Dispatch`).
  - Lemmas about those functions state what one message does, and what two messages in a row do: last write wins, and alerts are not deduplicated.
- `Dashboard`: the two list updaters run on each WebSocket message, the event-to-camera mapping and the badge classification of App.tsx.
- `Firmware`: the class `Device`, holding main.cpp's globals.
  - `Loop` is one pass of `loop()`: the 30 s climate gate, then edge detection with a 50 ms debounce on door1, door2 and the PIR.
  - Time differences wrap modulo 2^32, as `unsigned long` does on the ESP32.
  - Lemmas show that every topic the device publishes is routed by the backend with the intended id.
- `Wrappers`: an `Option` type.

Inputs of the model:

- The clock (`LocalDateTime.now()`, `millis()`).
- The JSON parser: `Env.readTree` gives either `NotJson` or a tree whose `temp`/`hum` members may be missing.
- The failures of `findById`, `save` and `convertAndSend`.
- The pin readings and the DHT11 result.

Behaviours of the code worth noting:

- A topic with neither prefix is silently ignored (`Report.Ignored`): nothing is logged. This includes `home/status` with no trailing slash and `foo/bar/baz`.
- A routed topic with nothing but slashes after the prefix is logged: `MalformedTopic` from `[2]`, or `PayloadDecodeError` on a status topic whose payload does not parse, because `readTree` runs before the split.
- `home/status//x` is accepted, and the device id is the empty string.
- No per-device serialisation exists around the `findById`/`save` pair. The model is sequential.
- `asDouble` coerces a non-numeric member to a number. Here the reading is whatever the parser returns; only a missing member is a decode failure.

## Model

| member | source | states |
|---|---|---|
| `Topics.Classify` | monitor-back/src/main/java/com/monitor/back/service/MqttService.java:32-36 | a topic is a status topic iff it starts with `home/status/`, an alert topic iff it starts with `home/alerts/`, otherwise neither |
| `Topics.PrefixesExclusive` | monitor-back/src/main/java/com/monitor/back/service/MqttService.java:32-36 | no topic has both prefixes, so the order of the two tests is immaterial |
| `Topics.SplitAll` | monitor-back/src/main/java/com/monitor/back/service/MqttService.java:44 | splitting gives at least one piece and no piece contains the separator |
| `Topics.TrimTrailingEmpty` | monitor-back/src/main/java/com/monitor/back/service/MqttService.java:44 | the result is the longest prefix of the pieces that does not end in an empty string; exactly the dropped pieces are empty |
| `Topics.JavaSplit` | monitor-back/src/main/java/com/monitor/back/service/MqttService.java:44 | Java's `split`: a string without the separator is one piece; otherwise the pieces are the raw split with exactly the trailing empty pieces dropped, and no piece contains the separator |
| `Topics.ThirdSegment` | monitor-back/src/main/java/com/monitor/back/service/MqttService.java:44 | `split("/")[2]` exists only for a topic holding a slash, and never contains one; `None` where Java throws |
| `Topics.JoinSplitAll` | monitor-back/src/main/java/com/monitor/back/service/MqttService.java:44 | joining the pieces with the separator gives back the original string |
| `Topics.SplitAllJoin` | monitor-back/src/main/java/com/monitor/back/service/MqttService.java:44 | splitting separator-free pieces joined by the separator gives back those pieces |
| `Topics.ThirdSegmentAfterPrefix` | monitor-back/src/main/java/com/monitor/back/service/MqttService.java:44 | on a routed topic, `split("/")[2]` exists iff a non-slash follows the prefix, and is then the slash-free text after the prefix up to the next slash or the end |
| `Topics.RoutedIdentifier` | monitor-back/src/main/java/com/monitor/back/service/MqttService.java:59 | `prefix + id` and `prefix + id + "/" + more` both yield `id` (extra segments ignored) |
| `Topics.IdentifierAfterPrefix` | monitor-back/src/main/java/com/monitor/back/service/MqttService.java:44 | on a routed topic, a non-empty slash-free word running from the prefix to a slash or the end is the segment read |
| `Ingestion.Upserted` | monitor-back/src/main/java/com/monitor/back/service/MqttService.java:46-50 | the row written is `(id, temp, hum, now)` whatever row existed before |
| `Ingestion.StatusStep` | monitor-back/src/main/java/com/monitor/back/service/MqttService.java:42-56 | a status message never touches the event log; unless it parses, has `temp`, `hum` and an id segment, and is read and saved, nothing changes and an exception other than a broadcast failure is reported; if saved, its id maps to `(temp, hum, now)`, every other key is kept, and the row is broadcast on `/topic/status` exactly when `convertAndSend` does not throw |
| `Ingestion.AlertStep` | monitor-back/src/main/java/com/monitor/back/service/MqttService.java:58-69 | an alert never touches the status store; without an id segment or with a failed save nothing changes; if saved, exactly one event `(next id, type = payload, sensor = segment, payload = payload, now)` is appended and broadcast on `/topic/alerts` exactly when `convertAndSend` does not throw |
| `Ingestion.Caught` | monitor-back/src/main/java/com/monitor/back/service/MqttService.java:37-39 | every exception is caught: the state reached so far is kept, a thrown exception is logged with its kind, and only a run without one is handled |
| `Ingestion.Dispatch` | monitor-back/src/main/java/com/monitor/back/service/MqttService.java:30-40 | an unrouted topic changes nothing; log and broadcasts only grow, by at most one; a broadcast happens iff the message is handled; no row is removed and at most one is added; consistency is kept |
| `Ingestion.MqttService.constructor` | monitor-back/src/main/java/com/monitor/back/service/MqttService.java:22-28 | the service starts over whatever consistent rows and events the repositories already hold (an empty database is one case), with nothing broadcast |
| `Ingestion.MqttService.HandleMessage` | monitor-back/src/main/java/com/monitor/back/service/MqttService.java:30-40 | for every topic and payload the method returns normally, stays valid, and its new state and report are those of `Dispatch` |
| `Ingestion.MqttService.HandleStatus` | monitor-back/src/main/java/com/monitor/back/service/MqttService.java:42-56 | parse, split, find, set fields, save, broadcast, in that order; the new state and exception are those of `StatusStep` |
| `Ingestion.MqttService.HandleAlert` | monitor-back/src/main/java/com/monitor/back/service/MqttService.java:58-69 | split, build the event, save, broadcast; the new state and exception are those of `AlertStep` |
| `Ingestion.StatusUpsert` | monitor-back/src/main/java/com/monitor/back/service/MqttService.java:44-55 | a decodable status message maps the id segment to `(temp, hum, now)`, leaves every other key as it was, and broadcasts that row once on `/topic/status` |
| `Ingestion.StatusFailure` | monitor-back/src/main/java/com/monitor/back/service/MqttService.java:43-55 | bad JSON, a missing `temp` or `hum`, a missing segment, or a failed read or save changes nothing, broadcasts nothing and is logged with the first exception in statement order (unparsable payload, then missing segment, then failed `findById`, then missing member, then failed `save`); a failed broadcast happens only after a save, keeps exactly the saved row `(id, temp, hum, now)` under its id and sends nothing |
| `Ingestion.AlertAppend` | monitor-back/src/main/java/com/monitor/back/service/MqttService.java:59-68 | an alert appends exactly one event `(type = payload, sensor = segment, payload = payload)`, leaves earlier events and the store alone, and broadcasts it on `/topic/alerts` |
| `Ingestion.AlertFailure` | monitor-back/src/main/java/com/monitor/back/service/MqttService.java:59-68 | an alert without a segment is logged as `MalformedTopic` and a failed save as `StorageError`, both changing nothing; a failed broadcast keeps the appended event, advances the id and sends nothing |
| `Ingestion.MissingSegment` | monitor-back/src/main/java/com/monitor/back/service/MqttService.java:43-44 | a routed topic with only slashes after the prefix changes nothing and is logged as `MalformedTopic`, or as `PayloadDecodeError` for a status topic whose payload does not parse |
| `Ingestion.LastWriteWins` | monitor-back/src/main/java/com/monitor/back/service/MqttService.java:46-52 | once a status message for a device is saved, that device's row is what this message alone would write, whatever an earlier message for the same device did |
| `Ingestion.AlertsNotDeduplicated` | monitor-back/src/main/java/com/monitor/back/service/MqttService.java:61-65 | the same alert delivered twice, each save succeeding, adds two events after the old ones, with distinct ids and equal in everything but id and timestamp |
| `Dashboard.FindIndex` | monitor-web/src/App.tsx:95 | the first index holding the id, or -1 iff no entry has it |
| `Dashboard.UpsertStatus` | monitor-web/src/App.tsx:94-102 | with a matching id the first match is replaced in place, the length is kept and every other index is unchanged; without one the record is appended |
| `Dashboard.UpsertKeepsIdsUnique` | monitor-web/src/App.tsx:94-101 | unique ids stay unique, and the new record is in the list |
| `Dashboard.UpsertIdempotent` | monitor-web/src/App.tsx:94-101 | receiving the same status twice gives the same list as once |
| `Dashboard.PrependEvent` | monitor-web/src/App.tsx:114 | the new event comes first, the length is `min(old + 1, 50)`, and the old events follow in order, cut to fit |
| `Dashboard.LatestEventsFirst` | monitor-web/src/App.tsx:114 | two events received in a row are listed newest first ahead of the old ones, the list cut to the 50 newest |
| `Dashboard.Lower` | monitor-web/src/App.tsx:155 | `toLowerCase`: same length, each upper-case ASCII letter mapped to its lower-case letter, every other character kept |
| `Dashboard.Upper` | monitor-web/src/App.tsx:156 | `toUpperCase`: same length, each lower-case ASCII letter mapped to its upper-case letter, every other character kept |
| `Dashboard.CaseNormalised` | monitor-web/src/App.tsx:155-156 | lower- and upper-casing forget any earlier case change |
| `Dashboard.CameraFor` | monitor-web/src/App.tsx:154-168 | room1 iff door1/OPEN, room2 iff door2/OPEN, room3 iff motion1/MOTION (sensor lower-cased, type upper-cased), room4 never |
| `Dashboard.CameraIgnoresCase` | monitor-web/src/App.tsx:154-166 | any two events whose sensors agree after lower-casing and whose types agree after upper-casing pick the same camera |
| `Dashboard.CameraIgnoresCaseChange` | monitor-web/src/App.tsx:155-156 | upper-casing the sensor and lower-casing the type of an event picks the same camera |
| `Dashboard.BadgeFor` | monitor-web/src/App.tsx:170-178 | OPEN, CLOSED and MOTION get their own badge, every other type a plain one; the label is the upper-cased type, or EVENT when it is empty |
| `Firmware.Elapsed` | monitor-iot/src/main.cpp:139 | `now - since` is the true difference, plus 2^32 when negative |
| `Firmware.Polled` | monitor-iot/src/main.cpp:160-162 | an input's memory changes iff the reading differs from the last level and more than 50 ms have passed, and then becomes exactly that reading at `now` |
| `Firmware.ReedPayload` | monitor-iot/src/main.cpp:164 | LOW is CLOSED, HIGH is OPEN |
| `Firmware.PirPayload` | monitor-iot/src/main.cpp:184 | HIGH is MOTION, LOW is CLEAR |
| `Firmware.Edge` | monitor-iot/src/main.cpp:160-166 | an input publishes at most one message, exactly when its debounced change fires, and that message is its payload on its topic |
| `Firmware.ClimateOut` | monitor-iot/src/main.cpp:139-156 | at most one climate message, exactly when more than 30 s have passed and the read succeeded, carrying the payload on `home/status/esp32_1` |
| `Firmware.Device.constructor` | monitor-iot/src/main.cpp:35-47 | the globals start at 0, doors HIGH, PIR LOW, nothing published |
| `Firmware.Device.Loop` | monitor-iot/src/main.cpp:136-186 | the gate time becomes `now` iff more than 30 s passed; each input's state is updated by `Polled`; the output grows by the climate message (gate open and read ok), then door1, door2 and PIR edges, in that order |
| `Firmware.Device.PollDoor1` | monitor-iot/src/main.cpp:159-166 | door1's state follows `Polled`, a fired edge publishes its payload on `home/alerts/door1`, and no other input's variables can change |
| `Firmware.Device.PollDoor2` | monitor-iot/src/main.cpp:169-176 | the same for door2 on `home/alerts/door2` |
| `Firmware.Device.PollPir` | monitor-iot/src/main.cpp:179-186 | the same for the PIR on `home/alerts/motion1` |
| `Firmware.ElapsedAcrossWrap` | monitor-iot/src/main.cpp:139-160 | for every start time and every real elapsed time below 2^32 ms, the wrapped difference is that elapsed time, the 30 s gate opens iff it exceeds 30000 and an input fires iff its level changed and it exceeds 50 |
| `Firmware.NoRepeatOfSameLevel` | monitor-iot/src/main.cpp:160-162 | after a publish the same level is never published again, however much later it is read |
| `Firmware.BounceSuppressed` | monitor-iot/src/main.cpp:160 | a change within 50 ms of the last publish leaves the input's memory unchanged |
| `Firmware.DeviceTopicsRouted` | monitor-iot/src/main.cpp:25-28 | the four device topics are classified as status or alert by the backend and yield ids esp32_1, door1, door2 and motion1 |
| `Firmware.PublishedRoutable` | monitor-iot/src/main.cpp:25-28 | every message a device has published has a routed topic with a non-empty id |

## Left out

- Broker wiring (`MqttConfig.java`) is not modelled. Messages are assumed to reach `handleMessage` one at a time.
- Concurrent dispatch and the lost-update race between `findById` and `save` are left out, because the model is sequential.
- Jackson is modelled only through `Env.readTree`. How it parses text, and how `asDouble` coerces non-numeric members, are not modelled.
- Temperatures and humidities are opaque `real` values. Double arithmetic, `String(t, 1)`, the payload JSON built in main.cpp, `isnan` and `toFixed` are out: floating point.
- JPA and Spring Data semantics are left out: managed entities, transactions, how IDENTITY ids are really assigned, and the generated queries of the repositories and `ApiController.java`.
  - Event ids come from a counter that advances on each successful insert.
- The text written to `System.err` and `Serial` is left out. `Report` records which kind of exception was logged.
- In App.tsx, the following are out as UI and network I/O:
  - React state hooks and rendering;
  - `fetch` of the initial lists;
  - the STOMP/SockJS connection;
  - `triggerCameraBlink` with its `setTimeout` reset.
  - `CameraFor` returns the camera that would blink.
- Case conversion covers ASCII letters only; JavaScript's full Unicode case mapping is not modelled.
- In main.cpp, the following are out as device I/O: WiFi and MQTT connect/reconnect loops, `mqttCallback`, `setup()`, `delay`, and the DHT11 driver.
  - `Loop` receives the DHT11 result as an already formatted payload, or None for a NaN read.
- `monitor-iot/data/script.js` is left out: its button handlers only issue `fetch` calls.
