/**
 * The MQTT message handler: decode, route, normalise, store, broadcast.
 * `Process` says what one message produces; `Server.OnMessage` applies it to
 * the two collections and the subscriber registry.
 */
module Ingestion {
  import opened Wrappers
  import opened Payload
  import opened Topics
  import opened Normalizer
  import opened Subscribers

  /** What the handler does with one message. */
  datatype Outcome =
    | Dropped                                           // not JSON, or no device id
    | Faulted                                           // payload is `null`: reading `json.ts` throws
    | Accepted(doc: Option<Document>, event: LiveEvent) // document to store (if any) and event to broadcast

  /** True when the topic carries a non-empty device id. */
  predicate Routable(topic: string)
  {
    DeviceIdFromTopic(topic).Some? && DeviceIdFromTopic(topic).value != ""
  }

  /**
   * One message on `topic` whose payload decoded to `parsed` (None when
   * `JSON.parse` failed), received at `receivedAt`.
   */
  function Process(topic: string, parsed: Option<Json>, receivedAt: int, iso: int -> string): (r: Outcome)
    ensures parsed.None? ==> r == Dropped
    ensures r.Faulted? <==> parsed == Some(JNull) && Routable(topic)
    ensures r.Accepted? <==> parsed.Some? && parsed.value != JNull && Routable(topic)
    ensures r.Accepted? ==>
              r.event.deviceId == DeviceIdFromTopic(topic).value
              && r.event.ts == iso(receivedAt)
              && (r.event.eventType == "telemetry" <==> EndsWith(topic, "/telemetry"))
              && (r.event.eventType == "alarm" <==> !EndsWith(topic, "/telemetry"))
    ensures r.Accepted? ==>
              (r.doc.Some? <==> EndsWith(topic, "/telemetry") || EndsWith(topic, "/alarm"))
    ensures r.Accepted? && r.doc.Some? ==>
              r.doc.value.deviceId == r.event.deviceId && r.doc.value.ts == receivedAt
              && r.doc.value.raw == parsed.value
              && (r.doc.value.TelemetryDoc? <==> EndsWith(topic, "/telemetry"))
  {
    match parsed
    case None => Dropped
    case Some(json) =>
      var deviceId := DeviceIdFromTopic(topic);
      if deviceId.None? || deviceId.value == "" then Dropped
      else if json.JNull? then Faulted
      else
        var id := deviceId.value;
        var doc :=
          match CategoryOf(topic)
          case TelemetryTopic => Some(Telemetry(id, receivedAt, json))
          case AlarmTopic => Some(Alarm(id, receivedAt, json))
          case OtherTopic => None;
        Accepted(doc, MakeEvent(EventType(topic), id, json, receivedAt, iso))
  }

  /** A payload that is not JSON produces nothing, on any topic. */
  lemma UnparsableDropped(topic: string, receivedAt: int, iso: int -> string)
    ensures Process(topic, None, receivedAt, iso) == Dropped
  {
  }

  /** A JSON object on `ns/id/telemetry` is stored as telemetry for `id` and broadcast as "telemetry". */
  lemma TelemetryMessage(ns: string, id: string, payload: Json, receivedAt: int, iso: int -> string)
    requires '/' !in ns && '/' !in id && id != "" && payload != JNull
    ensures var r := Process(ns + "/" + id + "/telemetry", Some(payload), receivedAt, iso);
            r.Accepted? && r.doc == Some(Telemetry(id, receivedAt, payload))
            && r.event == MakeEvent("telemetry", id, payload, receivedAt, iso)
  {
    TelemetryTopicRoute(ns, id);
  }

  /** A JSON value on `ns/id/alarm` is stored as an alarm for `id` and broadcast as "alarm". */
  lemma AlarmMessage(ns: string, id: string, payload: Json, receivedAt: int, iso: int -> string)
    requires '/' !in ns && '/' !in id && id != "" && payload != JNull
    ensures var r := Process(ns + "/" + id + "/alarm", Some(payload), receivedAt, iso);
            r.Accepted? && r.doc == Some(Alarm(id, receivedAt, payload))
            && r.event == MakeEvent("alarm", id, payload, receivedAt, iso)
  {
    AlarmTopicRoute(ns, id);
  }

  /** A topic with an empty device segment, such as `ns//telemetry`, is dropped. */
  lemma EmptyDeviceIdDropped(ns: string, rest: string, parsed: Option<Json>, receivedAt: int, iso: int -> string)
    requires '/' !in ns
    ensures Process(ns + "//" + rest, parsed, receivedAt, iso) == Dropped
  {
    assert ns + "//" + rest == ns + "/" + "" + "/" + rest;
    DeviceIdOfSegments(ns, "", rest);
  }

  /** A topic with fewer than two slashes is dropped. */
  lemma ShortTopicDropped(topic: string, parsed: Option<Json>, receivedAt: int, iso: int -> string)
    requires SlashCount(topic) < 2
    ensures Process(topic, parsed, receivedAt, iso) == Dropped
  {
    DeviceIdAbsent(topic);
  }

  /**
   * The backend's state: the two Mongo collections as append-only sequences
   * and the subscriber registry.
   */
  class Server {
    var telemetry: seq<Document>
    var alarms: seq<Document>
    const registry: Registry

    ghost predicate Valid()
      reads this, registry
    {
      registry.Valid()
    }

    constructor ()
      ensures Valid() && fresh(registry)
      ensures telemetry == [] && alarms == [] && registry.clients == map[]
    {
      telemetry := [];
      alarms := [];
      registry := new Registry();
    }

    /**
     * The MQTT `message` handler: the document, if any, is appended to its
     * collection, then the event goes to the open handles of its device.
     * Because a handle is registered under one device only, handles of every
     * other device receive nothing.
     */
    method OnMessage(topic: string, parsed: Option<Json>, receivedAt: int, iso: int -> string)
      requires Valid()
      modifies this, registry.AllHandles()
      ensures Valid() && registry.clients == old(registry.clients)
      ensures var r := Process(topic, parsed, receivedAt, iso);
              telemetry == old(telemetry) + (if r.Accepted? && r.doc.Some? && r.doc.value.TelemetryDoc? then [r.doc.value] else [])
              && alarms == old(alarms) + (if r.Accepted? && r.doc.Some? && r.doc.value.AlarmDoc? then [r.doc.value] else [])
      ensures var r := Process(topic, parsed, receivedAt, iso);
              forall h :: h in registry.AllHandles() ==>
                h.open == old(h.open)
                && h.outbox == old(h.outbox)
                               + (if r.Accepted? && h in registry.SubscribersOf(r.event.deviceId) && h.open then [r.event] else [])
      ensures var r := Process(topic, parsed, receivedAt, iso);
              forall e, h :: e in registry.clients && h in registry.clients[e] && (!r.Accepted? || e != r.event.deviceId) ==>
                h.outbox == old(h.outbox)
    {
      var r := Process(topic, parsed, receivedAt, iso);
      if !r.Accepted? {
        return;
      }
      if r.doc.Some? {
        if r.doc.value.TelemetryDoc? {
          telemetry := telemetry + [r.doc.value];
        } else {
          alarms := alarms + [r.doc.value];
        }
      }
      assert registry.SubscribersOf(r.event.deviceId) <= registry.AllHandles();
      registry.Broadcast(r.event.deviceId, r.event);
      forall e, h | e in registry.clients && h in registry.clients[e] && e != r.event.deviceId
        ensures h.outbox == old(h.outbox)
      {
        assert h !in registry.SubscribersOf(r.event.deviceId);
      }
    }
  }
}
