/**
 * Normalisation of a decoded payload: the telemetry and alarm documents the
 * handler stores, the device timestamp heuristic, and the live event it
 * broadcasts. Times are milliseconds since the epoch; the ISO 8601
 * formatting of a time (`toISOString`) is passed in as a function.
 */
module Normalizer {
  import opened Wrappers
  import opened Payload

  /** Device timestamps below this many units are read as seconds, others as milliseconds. */
  const SecondsThreshold: real := 1000000000000.0

  /** The stored documents. `None` in a numeric field is a stored `null`. */
  datatype Document =
    | TelemetryDoc(deviceId: string, ts: int, temperature: Option<real>, humidity: Option<real>,
                   chlorophyll: Option<real>, raw: Json)
    | AlarmDoc(deviceId: string, ts: int, level: Json, message: Json, raw: Json)

  /** The message pushed to live observers; `eventType` is the JSON key `type`. */
  datatype LiveEvent = LiveEvent(eventType: string, deviceId: string, ts: string, data: map<string, Json>)

  /** The ternary `ts < 1e12 ? ts * 1000 : ts`. */
  function DeviceMillis(t: real): real
  {
    if t < SecondsThreshold then t * 1000.0 else t
  }

  /** The device-reported time in milliseconds, present only when payload `ts` is a number. */
  function DeviceTimestamp(payload: Json): (r: Option<real>)
    requires !payload.JNull?
    ensures r.Some? <==> IsNumberAt(payload, "ts")
    ensures r.Some? ==> DeviceMillis(Member(payload, "ts").value.n) == r.value
  {
    match Member(payload, "ts")
    case Some(JNum(t)) => Some(DeviceMillis(t))
    case _ => None
  }

  /** A value read as seconds comes out as that many thousand milliseconds; one at or above the threshold is left as is. */
  lemma DeviceMillisCases(t: real)
    ensures t < SecondsThreshold ==> DeviceMillis(t) / 1000.0 == t
    ensures t >= SecondsThreshold ==> DeviceMillis(t) == t
  {
  }

  /**
   * Any time from 10^9 seconds onwards (September 2001) lands at or above the
   * threshold, where the heuristic is a fixed point: applying it again
   * changes nothing.
   */
  lemma DeviceMillisSettles(t: real)
    requires t >= 1000000000.0
    ensures DeviceMillis(t) >= SecondsThreshold
    ensures DeviceMillis(DeviceMillis(t)) == DeviceMillis(t)
  {
  }

  /** `typeof j.k === "number" ? j.k : null`. */
  function NumberOrNull(j: Json, k: string): (r: Option<real>)
    requires !j.JNull?
    ensures KeptIfNumber(j, k, r)
  {
    match Member(j, k)
    case Some(JNum(x)) => Some(x)
    case _ => None
  }

  /** `v` is the number at `j.k` when there is one, and null otherwise. */
  ghost predicate KeptIfNumber(j: Json, k: string, v: Option<real>)
    requires !j.JNull?
  {
    (v.Some? <==> IsNumberAt(j, k)) && (v.Some? ==> Member(j, k) == Some(JNum(v.value)))
  }

  /** `j.k ?? dflt`: the default when the key is absent or null, the value verbatim otherwise. */
  function OrDefault(j: Json, k: string, dflt: Json): (r: Json)
    requires !j.JNull?
    ensures Member(j, k).None? || Member(j, k) == Some(JNull) ==> r == dflt
    ensures Member(j, k).Some? && Member(j, k) != Some(JNull) ==> r == Member(j, k).value
  {
    match Member(j, k)
    case None => dflt
    case Some(JNull) => dflt
    case Some(v) => v
  }

  /** The telemetry document built for a payload received at `receivedAt`. */
  function Telemetry(deviceId: string, receivedAt: int, payload: Json): (doc: Document)
    requires !payload.JNull?
    ensures doc.TelemetryDoc? && doc.deviceId == deviceId && doc.ts == receivedAt && doc.raw == payload
    ensures KeptIfNumber(payload, "temperature", doc.temperature)
    ensures KeptIfNumber(payload, "humidity", doc.humidity)
    ensures KeptIfNumber(payload, "chlorophyll", doc.chlorophyll)
  {
    TelemetryDoc(deviceId, receivedAt,
                 NumberOrNull(payload, "temperature"),
                 NumberOrNull(payload, "humidity"),
                 NumberOrNull(payload, "chlorophyll"),
                 payload)
  }

  /** The alarm document built for a payload received at `receivedAt`. */
  function Alarm(deviceId: string, receivedAt: int, payload: Json): (doc: Document)
    requires !payload.JNull?
    ensures doc.AlarmDoc? && doc.deviceId == deviceId && doc.ts == receivedAt && doc.raw == payload
    ensures Member(payload, "level").None? || Member(payload, "level") == Some(JNull) ==> doc.level == JStr("unknown")
    ensures Member(payload, "level").Some? && Member(payload, "level") != Some(JNull) ==> doc.level == Member(payload, "level").value
    ensures Member(payload, "message").None? || Member(payload, "message") == Some(JNull) ==> doc.message == JStr("")
    ensures Member(payload, "message").Some? && Member(payload, "message") != Some(JNull) ==> doc.message == Member(payload, "message").value
  {
    AlarmDoc(deviceId, receivedAt,
             OrDefault(payload, "level", JStr("unknown")),
             OrDefault(payload, "message", JStr("")),
             payload)
  }

  /**
   * The broadcast event: the payload's own properties with `ts` overwritten
   * by the receipt time in ISO form, and the same ISO string as the event's
   * own `ts`.
   */
  function MakeEvent(eventType: string, deviceId: string, payload: Json, receivedAt: int, iso: int -> string): (e: LiveEvent)
    ensures e.eventType == eventType && e.deviceId == deviceId && e.ts == iso(receivedAt)
    ensures "ts" in e.data && e.data["ts"] == JStr(e.ts)
    ensures e.data.Keys == Spread(payload).Keys + {"ts"}
    ensures forall k :: k in e.data && k != "ts" ==> e.data[k] == Spread(payload)[k]
  {
    LiveEvent(eventType, deviceId, iso(receivedAt), Spread(payload)["ts" := JStr(iso(receivedAt))])
  }

  /**
   * Overwriting `ts` is idempotent: rebuilding an event from its own data
   * with the same receipt time reproduces that data.
   */
  lemma MakeEventIdempotent(eventType: string, deviceId: string, payload: Json, receivedAt: int, iso: int -> string)
    ensures var e := MakeEvent(eventType, deviceId, payload, receivedAt, iso);
            MakeEvent(eventType, deviceId, JObj(e.data), receivedAt, iso) == e
  {
    var e := MakeEvent(eventType, deviceId, payload, receivedAt, iso);
    var e2 := MakeEvent(eventType, deviceId, JObj(e.data), receivedAt, iso);
    assert e2.data == e.data;
  }

  /** A payload with all three readings and a timestamp in seconds: the readings are kept and `ts` is scaled to milliseconds. */
  lemma TelemetryExample(deviceId: string, receivedAt: int)
    ensures var p := JObj(map["temperature" := JNum(21.5), "humidity" := JNum(60.0),
                              "chlorophyll" := JNum(3.0), "ts" := JNum(1700000000.0)]);
            Telemetry(deviceId, receivedAt, p) == TelemetryDoc(deviceId, receivedAt, Some(21.5), Some(60.0), Some(3.0), p)
            && DeviceTimestamp(p) == Some(1700000000000.0)
  {
  }

  /** A reading sent as a string is stored as null, not coerced. */
  lemma StringReadingIsNull(deviceId: string, receivedAt: int)
    ensures var p := JObj(map["temperature" := JStr("warm")]);
            Telemetry(deviceId, receivedAt, p) == TelemetryDoc(deviceId, receivedAt, None, None, None, p)
  {
  }

  /** `??` only replaces null and absent values: falsy ones such as `0` and `false` are kept. */
  lemma AlarmKeepsFalsyValues(deviceId: string, receivedAt: int)
    ensures var p := JObj(map["level" := JNum(0.0), "message" := JBool(false)]);
            Alarm(deviceId, receivedAt, p) == AlarmDoc(deviceId, receivedAt, JNum(0.0), JBool(false), p)
  {
  }

  /** An empty alarm payload takes both defaults. */
  lemma EmptyAlarmDefaults(deviceId: string, receivedAt: int)
    ensures Alarm(deviceId, receivedAt, JObj(map[])) == AlarmDoc(deviceId, receivedAt, JStr("unknown"), JStr(""), JObj(map[]))
  {
  }
}
