/**
 `PayloadBuilder`: the request bodies for creating a cycle and adding a
 test, as maps from field name to JSON value. Each Java method fills a fresh
 `HashMap` that nobody else sees, so each is a map value here.
 */
module PayloadBuilder {
  import opened Common

  /** A Java `int`. */
  newtype int32 = x: int | -0x8000_0000 <= x < 0x8000_0000

  /** The values the payloads hold: a `String` or an `Integer`. */
  datatype JsonValue = JString(text: string) | JInt(number: int32)

  type Payload = map<string, JsonValue>

  /** `buildCyclePayload(name, projectId, versionId)`. */
  function BuildCyclePayload(name: string, projectId: int32, versionId: int32): (payload: Payload)
    ensures payload.Keys == {"name", "projectId", "versionId"}
    ensures payload["name"].JString? && payload["projectId"].JInt? && payload["versionId"].JInt?
  {
    map["name" := JString(name), "projectId" := JInt(projectId), "versionId" := JInt(versionId)]
  }

  /** Reads the fields of a cycle payload back; None unless it has exactly those keys with those kinds of value. */
  function ReadCyclePayload(payload: Payload): Option<(string, int32, int32)>
  {
    if payload.Keys == {"name", "projectId", "versionId"}
       && payload["name"].JString? && payload["projectId"].JInt? && payload["versionId"].JInt?
    then Some((payload["name"].text, payload["projectId"].number, payload["versionId"].number))
    else None
  }

  /** The cycle payload carries its arguments unchanged, the ids as integers. */
  lemma CyclePayloadRoundTrip(name: string, projectId: int32, versionId: int32)
    ensures ReadCyclePayload(BuildCyclePayload(name, projectId, versionId)) == Some((name, projectId, versionId))
  {
  }

  /** `buildAddTestPayload(issueId, cycleId, projectId)`: all three are strings. */
  function BuildAddTestPayload(issueId: string, cycleId: string, projectId: string): (payload: Payload)
    ensures payload.Keys == {"issueId", "cycleId", "projectId"}
    ensures forall k :: k in payload ==> payload[k].JString?
  {
    map["issueId" := JString(issueId), "cycleId" := JString(cycleId), "projectId" := JString(projectId)]
  }

  /** Reads the fields of an add-test payload back. */
  function ReadAddTestPayload(payload: Payload): Option<(string, string, string)>
  {
    if payload.Keys == {"issueId", "cycleId", "projectId"}
       && payload["issueId"].JString? && payload["cycleId"].JString? && payload["projectId"].JString?
    then Some((payload["issueId"].text, payload["cycleId"].text, payload["projectId"].text))
    else None
  }

  /** The add-test payload carries its arguments unchanged, the project id as text. */
  lemma AddTestPayloadRoundTrip(issueId: string, cycleId: string, projectId: string)
    ensures ReadAddTestPayload(BuildAddTestPayload(issueId, cycleId, projectId)) == Some((issueId, cycleId, projectId))
  {
  }

  /** Distinct arguments give distinct cycle payloads. */
  lemma CyclePayloadInjective(n1: string, p1: int32, v1: int32, n2: string, p2: int32, v2: int32)
    requires BuildCyclePayload(n1, p1, v1) == BuildCyclePayload(n2, p2, v2)
    ensures n1 == n2 && p1 == p2 && v1 == v2
  {
    CyclePayloadRoundTrip(n1, p1, v1);
    CyclePayloadRoundTrip(n2, p2, v2);
  }
}
