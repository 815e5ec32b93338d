# Plant monitor backend: ingestion, normalisation and live fan-out

This project models the message path of the plant-monitor backend
(`backend/server.js`). Devices publish JSON on MQTT topics
`plantform/<deviceId>/telemetry` and `plantform/<deviceId>/alarm`. For each
message the backend does four things:

1. It decodes the payload.
2. It takes the device id from the topic.
3. It builds a telemetry or alarm document for MongoDB.
4. It pushes a live event to every open WebSocket that subscribed to that
   device.

The model also covers the registry of those WebSocket subscribers and the
parameter rule of the history endpoint.

Modules:

- `Wrappers`: `Option`.
- `Payload`: the decoded JSON value, property access (`json.k`) and object
  spread (`{ ...json }`).
- `Topics`: `split("/")` and its inverse `Join`, `parseDeviceIdFromTopic`,
  and the suffix tests.
- `Normalizer`: the device-timestamp heuristic, the telemetry and alarm
  documents, and the live event.
- `Subscribers`:
  - the class `Handle`: a WebSocket with its `open` state and an outbox of
    sent messages;
  - the class `Registry`: `wsClientsByDevice` as a `map<string, set<Handle>>`
    that the upgrade and close handlers update in place, and
    `broadcastToDevice` as a loop over the device's set.
- `Ingestion`:
  - `Process`: what one MQTT message yields (dropped, faulted, or a document
    plus an event);
  - the class `Server`: the two collections as append-only sequences plus the
    registry. Its `OnMessage` applies `Process`.
- `History`: the `limit` clamp and the `hours` check of
  `GET /devices/:id/history`.

The clock and ISO formatting are parameters. The receipt time is an `int` of
milliseconds, and `toISOString` is a function `iso: int -> string`. A
payload that `JSON.parse` rejects is represented as `None`.

Three behaviours of the handler worth noting:

- **Unknown suffix.** A topic with a device id but neither suffix is not
  rejected. No document is stored, but the event is still broadcast with type
  `"alarm"` (`Process`, `Topics.EventType`). In practice the MQTT
  subscriptions only deliver the two suffixes.
- **Device timestamp.** The device timestamp is computed but not stored. The
  documents carry only the receipt time.
- **`null` payload.** A payload that decodes to `null` makes `json.ts` throw.
  This happens only after the device id check, so an unroutable `null`
  message is silently dropped. A routable one faults before anything is
  stored or sent (`Outcome.Faulted`). The throw is never caught; "## Left
  out" says what that does to the process.

## Model

| member | source | states |
|---|---|---|
| `Topics.Split` | backend/server.js:46 | `split("/")` always yields at least one part, and no part contains a slash |
| `Topics.JoinSplit` | backend/server.js:46 | splitting loses nothing: joining the parts with `/` gives back the topic |
| `Topics.SplitLength` | backend/server.js:46-47 | the number of parts is the number of slashes plus one |
| `Topics.SplitAfterSegment` | backend/server.js:46-48 | a slash-free leading segment becomes exactly the first part |
| `Topics.DeviceIdFromTopic` | backend/server.js:44-49 | the device id, when there is one, contains no slash |
| `Topics.DeviceIdOfSegments` | backend/server.js:44-49 | every topic `ns/id/rest` with slash-free `ns` and `id` yields `id`, whatever `rest` holds |
| `Topics.SegmentsOfDeviceId` | backend/server.js:44-49 | conversely, a topic that yields an id has the shape `ns/id/rest` with that id |
| `Topics.DeviceIdAbsent` | backend/server.js:46-47 | the topic is rejected exactly when it has fewer than two slashes, i.e. fewer than three segments |
| `Topics.CategoryOf` | backend/server.js:103-123 | telemetry exactly when the topic ends in `/telemetry`; alarm exactly when it ends in `/alarm` but not `/telemetry` |
| `Topics.EventType` | backend/server.js:126 | the event type is "telemetry" exactly for telemetry topics and "alarm" for every other topic |
| `Topics.TelemetryTopicRoute` | backend/server.js:103-126 | `ns/id/telemetry` yields device `id`, the telemetry category and type "telemetry" |
| `Topics.AlarmTopicRoute` | backend/server.js:114-126 | `ns/id/alarm` yields device `id`, the alarm category and type "alarm" |
| `Payload.Member` | backend/server.js:96 | `json.k` is present exactly when the payload is an object with own key `k`, and it is that key's value |
| `Payload.Spread` | backend/server.js:129 | spreading an object copies its fields; spreading an array or a string copies element or character `i` under the key `"i"` and nothing else; spreading `null`, a boolean or a number copies nothing |
| `Payload.Indexed` | backend/server.js:129 | the index object has exactly the keys `"0"` to `"n-1"`, each holding the element at that index |
| `Payload.DecimalRoundTrip` | backend/server.js:129 | reading an index key back as a number gives the index |
| `Payload.DecimalStringInjective` | backend/server.js:129 | distinct indexes have distinct keys, so no element of a spread array overwrites another |
| `Normalizer.DeviceTimestamp` | backend/server.js:95-99 | the device time is present exactly when payload `ts` is a number, and it is the heuristic applied to that number |
| `Normalizer.DeviceMillisCases` | backend/server.js:98 | below 10^12 the value is read as seconds (result / 1000 is the input); at or above 10^12 it is returned unchanged |
| `Normalizer.DeviceMillisSettles` | backend/server.js:98 | from 10^9 onwards the result is at least 10^12, where the heuristic is a fixed point |
| `Normalizer.NumberOrNull` | backend/server.js:107-109 | a reading is kept exactly when the payload field is a number, and it then equals that number; otherwise null |
| `Normalizer.OrDefault` | backend/server.js:118-119 | `??` gives the default for an absent or null field, and the field verbatim otherwise |
| `Normalizer.Telemetry` | backend/server.js:104-111 | the telemetry document carries the device id and receipt time, keeps each reading only if it is a number, and stores the whole payload as `raw` |
| `Normalizer.Alarm` | backend/server.js:115-121 | the alarm document has level "unknown" and message "" when those fields are absent or null, and keeps any other value verbatim, with `raw` the whole payload |
| `Normalizer.MakeEvent` | backend/server.js:125-130 | the event's data holds the payload's keys plus `ts`; `ts` is the receipt time's ISO string and equals the event's own `ts`; every other key keeps its payload value |
| `Normalizer.MakeEventIdempotent` | backend/server.js:129 | overwriting `ts` is idempotent: rebuilding an event from its own data gives the same event |
| `Normalizer.TelemetryExample` | backend/server.js:95-111 | the payload `{temperature: 21.5, humidity: 60, chlorophyll: 3, ts: 1700000000}` keeps all three readings, and its device time is 1700000000000 ms |
| `Normalizer.StringReadingIsNull` | backend/server.js:107 | `{temperature: "warm"}` stores a null temperature rather than coercing the string |
| `Normalizer.AlarmKeepsFalsyValues` | backend/server.js:118-119 | a level of `0` and a message of `false` are kept, not replaced by the defaults |
| `Normalizer.EmptyAlarmDefaults` | backend/server.js:118-119 | an empty alarm payload gives level "unknown" and message "" |
| `Subscribers.Handle.constructor` | backend/server.js:197 | a new connection has the given open state and has been sent nothing |
| `Subscribers.Handle.Send` | backend/server.js:26 | sending appends the message to the connection's outbox and leaves its state alone |
| `Subscribers.Subscribed` | backend/server.js:198-201 | after an upgrade the device has an entry containing the handle; no other device's set changes |
| `Subscribers.Unsubscribed` | backend/server.js:204 | close removes the handle from the device's set and keeps the key, even when the set becomes empty; no other device's set changes |
| `Subscribers.UnsubscribeIdempotent` | backend/server.js:204 | closing a second time changes nothing |
| `Subscribers.SubscribeThenClose` | backend/server.js:198-205 | subscribing a new handle and closing it restores the registry, except that a new device keeps an empty set |
| `Subscribers.SubscribedDisjoint` | backend/server.js:197-201 | adding a new handle keeps every handle under at most one device |
| `Subscribers.UnsubscribedDisjoint` | backend/server.js:204 | removing a handle keeps every handle under at most one device |
| `Subscribers.Registry.constructor` | backend/server.js:14 | the registry starts empty |
| `Subscribers.Registry.Upgrade` | backend/server.js:185-201 | a missing or empty `deviceId` registers nothing; otherwise the registry becomes `Subscribed`, and handles stay under at most one device |
| `Subscribers.Registry.Close` | backend/server.js:203-205 | the registry becomes `Unsubscribed` |
| `Subscribers.Registry.Broadcast` | backend/server.js:16-29 | each open handle of the device receives the event exactly once; closed handles, other devices' handles and the registry are unchanged, and a device without an entry is a no-op |
| `Ingestion.Process` | backend/server.js:78-130 | unparsable payloads are dropped on any topic. A message is accepted exactly when it parsed to a non-null value and the topic has a non-empty device id; a routable `null` faults. An accepted event carries that device id and the ISO receipt time, with type "telemetry" exactly for `/telemetry` topics. A document exists exactly for the two known suffixes and carries the same device id, the receipt time and the raw payload |
| `Ingestion.UnparsableDropped` | backend/server.js:82-87 | a payload that fails to parse yields nothing, whatever the topic |
| `Ingestion.TelemetryMessage` | backend/server.js:89-130 | a payload on `ns/id/telemetry` yields the telemetry document and a "telemetry" event for `id` |
| `Ingestion.AlarmMessage` | backend/server.js:89-130 | a payload on `ns/id/alarm` yields the alarm document and an "alarm" event for `id` |
| `Ingestion.EmptyDeviceIdDropped` | backend/server.js:89-90 | a topic such as `ns//telemetry` is dropped |
| `Ingestion.ShortTopicDropped` | backend/server.js:89-90 | a topic with fewer than two slashes is dropped |
| `Ingestion.Server.constructor` | backend/server.js:38-39 | no document has been inserted yet into either collection, and the registry is empty |
| `Ingestion.Server.OnMessage` | backend/server.js:78-130 | a telemetry document is appended to `telemetry` and an alarm document to `alarms`, nothing else is stored, and each open handle of the event's device receives the event once. Other handles and the registry are unchanged. Because each handle is registered under one device only, no handle of another device receives anything |
| `History.ClampLimit` | backend/server.js:152 | `Math.min(x, 2000)` is never above 2000. It keeps finite values up to 2000 and -Infinity, maps larger values and +Infinity to 2000, and propagates NaN |
| `History.HistoryRequest` | backend/server.js:147-164 | the request is rejected with "Invalid hours" exactly when `hours` is given and is not a finite positive number. Otherwise the window starts `hours` hours before now, and only when `hours` is given; the limit is 500 by default and `Math.min(limit, 2000)` otherwise |
| `History.LimitNeverAboveMax` | backend/server.js:152 | whatever the request, the limit handed to the store is never above 2000 |
| `History.LimitNotClampedBelow` | backend/server.js:152 | the clamp is one-sided: a zero, negative or -Infinity limit reaches the store unchanged |

## Left out

- MQTT connection, credentials and topic subscriptions (backend/server.js:42, 65-76). Only the handler for one delivered message is modelled.
- MongoDB connection, indexes and queries (backend/server.js:53-60, 136-145, 166-170). An insert is an append to a sequence. The `latest` endpoint and the actual history query are not modelled; only the history parameter rule is.
- Insert failures. The handler awaits the insert before broadcasting, so a rejected insert skips the broadcast. The model's inserts always succeed.
- What happens after a fault. The message handler is an `async` listener (backend/server.js:78) with no `try`/`catch` around the `json.ts` read (backend/server.js:96) or the inserts (backend/server.js:113, 122), and no handler for unhandled rejections is registered. A throw there therefore rejects the handler's promise unhandled, and since Node 15 that ends the process by default, so no later message is handled. `Ingestion.Server.OnMessage` treats `Faulted` as a no-op and goes on to the next message; a rejected insert is not modelled at all.
- Express routing, HTTP status codes and bodies, the listen call, URL parsing of the upgrade request, and `socket.destroy` (backend/server.js:136-207). Only the parameter rule and the registry effect are modelled.
- Byte-to-string decoding and `JSON.parse`. The model receives the parse result (`None` on failure).
- `JSON.stringify` of the event. The outbox holds the event value.
- Key order within objects, and the UTF-16 code units of a spread string.
- Floating point. JSON numbers are exact reals. Rounding, `1e400` parsing to Infinity, and the range limit of `Date` are not modelled.
- A limit of zero or below. It is handed to the store as it is (`History.LimitNotClampedBelow`), where MongoDB reads `limit(0)` as no limit. What the store then returns is not modelled.
- `Number(...)` on query strings. The history rule receives the resulting number (`JsNumber`), NaN and the infinities included.
- `new Date()`, `Date.now()` and `toISOString()` are parameters.
- The WebSocket library. It sets a handle's `readyState`, so `open` is given when a `Handle` is created and nothing in the model changes it.
- Logging, `dotenv` and the process exit on a startup failure (backend/server.js:1, 18, 211-214).
- Interleaving of handlers. `Ingestion.Server.OnMessage` treats the append and the broadcast as one atomic step. The source does not. The handler suspends at the awaited insert (backend/server.js:113, 122), and while it waits, upgrade and close callbacks and other messages can run. So the broadcast may see a registry different from the one at receipt, and two messages for one device may be broadcast in a different order from their receipt.
- `Payload.Member`: models only an object's own keys. The own `length` and index properties of strings and arrays, and inherited members such as `toString` and `constructor`, read as undefined. The handler reads only `ts`, `temperature`, `humidity`, `chlorophyll`, `level` and `message`, none of which is such a property.
