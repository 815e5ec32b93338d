/**
 * Topic routing: the device id is the second `/`-separated segment of the
 * MQTT topic, and the topic's suffix decides the message category.
 */
module Topics {
  import opened Wrappers

  /**
   * `s.split("/")`: the slash-free runs of `s` in order, empty runs included,
   * so there is always at least one part.
   */
  function Split(s: string): (parts: seq<string>)
    ensures |parts| >= 1
    ensures forall i :: 0 <= i < |parts| ==> '/' !in parts[i]
    decreases |s|
  {
    if s == "" then [""]
    else
      var rest := Split(s[1..]);
      if s[0] == '/' then [""] + rest
      else [[s[0]] + rest[0]] + rest[1..]
  }

  /** `parts.join("/")`, the inverse of Split. */
  function Join(parts: seq<string>): string
    requires |parts| >= 1
    decreases |parts|
  {
    if |parts| == 1 then parts[0] else parts[0] + "/" + Join(parts[1..])
  }

  /** The number of `/` characters in `s`. */
  function SlashCount(s: string): nat
    decreases |s|
  {
    if s == "" then 0 else (if s[0] == '/' then 1 else 0) + SlashCount(s[1..])
  }

  /** Splitting loses nothing: joining the parts back gives the topic. */
  lemma {:induction false} JoinSplit(s: string)
    ensures Join(Split(s)) == s
    decreases |s|
  {
    if s != "" {
      var rest := Split(s[1..]);
      JoinSplit(s[1..]);
      if s[0] == '/' {
        assert ([""] + rest)[1..] == rest;
        assert s == "/" + s[1..];
      } else {
        var parts := Split(s);
        assert parts == [[s[0]] + rest[0]] + rest[1..];
        if |rest| == 1 {
          assert s == [s[0]] + rest[0];
        } else {
          assert parts[1..] == rest[1..];
          assert Join(rest) == rest[0] + "/" + Join(rest[1..]);
          assert s == [s[0]] + s[1..];
        }
      }
    }
  }

  /** There is one more part than there are slashes. */
  lemma {:induction false} SplitLength(s: string)
    ensures |Split(s)| == SlashCount(s) + 1
    decreases |s|
  {
    if s != "" {
      SplitLength(s[1..]);
    }
  }

  /** A slash-free leading segment becomes exactly the first part. */
  lemma {:induction false} SplitAfterSegment(a: string, b: string)
    requires '/' !in a
    ensures Split(a + "/" + b) == [a] + Split(b)
    decreases |a|
  {
    var s := a + "/" + b;
    if a == "" {
      assert s == "/" + b && s[1..] == b;
    } else {
      assert s[0] == a[0] && s[1..] == a[1..] + "/" + b;
      SplitAfterSegment(a[1..], b);
      assert [a[0]] + a[1..] == a;
    }
  }

  /**
   * `parseDeviceIdFromTopic`: None when the topic has fewer than three
   * segments, otherwise the second segment (which may be empty).
   */
  function DeviceIdFromTopic(topic: string): (id: Option<string>)
    ensures id.Some? ==> '/' !in id.value
  {
    var parts := Split(topic);
    if |parts| < 3 then None else Some(parts[1])
  }

  /** The topic is `ns/id/rest` with `ns` and `id` slash-free. */
  ghost predicate Segmented(topic: string, ns: string, id: string, rest: string)
  {
    '/' !in ns && '/' !in id && topic == ns + "/" + id + "/" + rest
  }

  /** A topic of the shape `ns/id/rest` yields `id`, whatever `rest` holds. */
  lemma DeviceIdOfSegments(ns: string, id: string, rest: string)
    requires '/' !in ns && '/' !in id
    ensures DeviceIdFromTopic(ns + "/" + id + "/" + rest) == Some(id)
  {
    SplitAfterSegment(id, rest);
    assert ns + "/" + id + "/" + rest == ns + "/" + (id + "/" + rest);
    SplitAfterSegment(ns, id + "/" + rest);
  }

  /** Conversely, every topic that yields an id has the shape `ns/id/rest`. */
  lemma SegmentsOfDeviceId(topic: string)
    requires DeviceIdFromTopic(topic).Some?
    ensures exists ns, rest :: Segmented(topic, ns, DeviceIdFromTopic(topic).value, rest)
  {
    var parts := Split(topic);
    JoinSplit(topic);
    assert Join(parts) == parts[0] + "/" + Join(parts[1..]);
    assert parts[1..][1..] == parts[2..];
    assert Join(parts[1..]) == parts[1] + "/" + Join(parts[2..]);
    assert Segmented(topic, parts[0], parts[1], Join(parts[2..]));
  }

  /** The topic is rejected exactly when it holds fewer than two slashes. */
  lemma DeviceIdAbsent(topic: string)
    ensures DeviceIdFromTopic(topic).None? <==> SlashCount(topic) < 2
  {
    SplitLength(topic);
  }

  /** `s.endsWith(suffix)`. */
  predicate EndsWith(s: string, suffix: string)
  {
    |suffix| <= |s| && s[|s| - |suffix|..] == suffix
  }

  /** Which document the handler builds for a topic. */
  datatype Category = TelemetryTopic | AlarmTopic | OtherTopic

  /** The `if / else if` on the topic suffix. */
  function CategoryOf(topic: string): (c: Category)
    ensures c == TelemetryTopic <==> EndsWith(topic, "/telemetry")
    ensures c == AlarmTopic <==> !EndsWith(topic, "/telemetry") && EndsWith(topic, "/alarm")
  {
    if EndsWith(topic, "/telemetry") then TelemetryTopic
    else if EndsWith(topic, "/alarm") then AlarmTopic
    else OtherTopic
  }

  /** The live event's `type`: "telemetry" for the telemetry suffix, "alarm" for every other topic. */
  function EventType(topic: string): (t: string)
    ensures t == "telemetry" <==> CategoryOf(topic) == TelemetryTopic
    ensures t == "alarm" <==> CategoryOf(topic) != TelemetryTopic
  {
    if EndsWith(topic, "/telemetry") then "telemetry" else "alarm"
  }

  /** `ns/id/telemetry` routes to device `id` as telemetry. */
  lemma TelemetryTopicRoute(ns: string, id: string)
    requires '/' !in ns && '/' !in id
    ensures DeviceIdFromTopic(ns + "/" + id + "/telemetry") == Some(id)
    ensures CategoryOf(ns + "/" + id + "/telemetry") == TelemetryTopic
    ensures EventType(ns + "/" + id + "/telemetry") == "telemetry"
  {
    DeviceIdOfSegments(ns, id, "telemetry");
    var t := ns + "/" + id + "/telemetry";
    assert t == ns + "/" + id + "/" + "telemetry";
    assert t == (ns + "/" + id) + "/telemetry";
    assert t[|t| - 10..] == "/telemetry";
  }

  /** `ns/id/alarm` routes to device `id` as an alarm. */
  lemma AlarmTopicRoute(ns: string, id: string)
    requires '/' !in ns && '/' !in id
    ensures DeviceIdFromTopic(ns + "/" + id + "/alarm") == Some(id)
    ensures CategoryOf(ns + "/" + id + "/alarm") == AlarmTopic
    ensures EventType(ns + "/" + id + "/alarm") == "alarm"
  {
    DeviceIdOfSegments(ns, id, "alarm");
    var t := ns + "/" + id + "/alarm";
    assert t == ns + "/" + id + "/" + "alarm";
    assert t == (ns + "/" + id) + "/alarm";
    assert t[|t| - 6..] == "/alarm";
    assert t[|t| - 1] == 'm';
  }
}
