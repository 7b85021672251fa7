/**
 * The bookkeeping rules of the development-mode usage statistics: the report interval,
 * the per-project counters, the project list, the "time to send" test and the decisions
 * taken on telemetry posted from the browser. JSON documents are `Json` values; clocks,
 * system properties and requests are parameters.
 */
module UsageStatistics {
  import opened Wrappers
  import opened JavaInts
  import opened JavaStrings
  import opened JsonTree

  const TIME_MS_24H: int := 86400000
  const TIME_MS_30D: int := 2592000000
  const MAX_TELEMETRY_LENGTH: int := 1024 * 100
  const MISSING_DATA: string := "[NA]"
  const TELEMETRY_PARAMETER: string := "vaadin_telemetry_data"

  const FIELD_LAST_SENT: string := "lastSent"
  const FIELD_LAST_STATUS: string := "lastSendStatus"
  const FIELD_SEND_INTERVAL: string := "reportInterval"
  const FIELD_SERVER_MESSAGE: string := "serverMessage"
  const FIELD_PROJECT_ID: string := "id"
  const FIELD_PROJECTS: string := "projects"

  // ----- Report interval -----

  /**
   * `normalizeInterval`. Its documentation promises the interval itself when it lies
   * between 24 hours and 30 days; the code returns 24 hours for every interval up to
   * 30 days and 30 days above that.
   */
  function NormalizeInterval(interval: Int64): (r: Int64)
    ensures TIME_MS_24H <= r <= TIME_MS_30D
    ensures interval > TIME_MS_30D ==> r == TIME_MS_30D
    ensures interval <= TIME_MS_30D ==> r == TIME_MS_24H
  {
    if interval < TIME_MS_24H then TIME_MS_24H
    else if interval > TIME_MS_30D then TIME_MS_30D
    else TIME_MS_24H
  }

  /**
   * Normalising is not idempotent: an interval capped at 30 days normalises, when it is
   * read back, to 24 hours.
   */
  lemma {:induction false} CappedIntervalReadsBackAs24h(interval: Int64)
    ensures NormalizeInterval(NormalizeInterval(interval)) == TIME_MS_24H
  {
  }

  /** `getLastSendTime`: the stored `lastSent` as a long, or -1 when it is missing. */
  function GetLastSendTime(json: map<string, Json>): (r: Int64)
    ensures FIELD_LAST_SENT !in json ==> r == -1
    ensures FIELD_LAST_SENT in json && json[FIELD_LAST_SENT].JLong? && -0x8000_0000_0000_0000 <= json[FIELD_LAST_SENT].l < 0x8000_0000_0000_0000 ==>
              r == json[FIELD_LAST_SENT].l
  {
    if FIELD_LAST_SENT in json then AsLong(json[FIELD_LAST_SENT]) else -1
  }

  /** `getInterval`: the stored interval, normalised, or 24 hours when it is missing. */
  function GetInterval(json: map<string, Json>): (r: Int64)
    ensures r == TIME_MS_24H || r == TIME_MS_30D
    ensures FIELD_SEND_INTERVAL !in json ==> r == TIME_MS_24H
    ensures r == TIME_MS_30D <==> FIELD_SEND_INTERVAL in json && AsLong(json[FIELD_SEND_INTERVAL]) > TIME_MS_30D
  {
    if FIELD_SEND_INTERVAL in json then NormalizeInterval(AsLong(json[FIELD_SEND_INTERVAL])) else TIME_MS_24H
  }

  /**
   * `isIntervalElapsed`: `lastSend + interval < now`, in `long` arithmetic. Unless the sum
   * overflows, that is "more than the interval has passed since the last send".
   */
  function IsIntervalElapsed(json: map<string, Json>, now: Int64): (r: bool)
    ensures GetLastSendTime(json) < 0x8000_0000_0000_0000 - TIME_MS_30D ==>
              (r <==> now - GetLastSendTime(json) > GetInterval(json))
  {
    Wrap64(GetLastSendTime(json) + GetInterval(json)) < now
  }

  /** Without any stored data, statistics are due once the clock is past 24 hours minus 1 ms. */
  lemma {:induction false} FreshStatisticsAreDue(now: Int64)
    ensures IsIntervalElapsed(map[], now) <==> now > TIME_MS_24H - 1
  {
  }

  /**
   * After a send at time `t` the statistics are due again exactly when more than the
   * stored interval (24 hours, or 30 days if the stored interval exceeds 30 days) has passed.
   */
  lemma {:induction false} DueAfterInterval(json: map<string, Json>, t: Int64, now: Int64)
    requires FIELD_LAST_SENT in json && json[FIELD_LAST_SENT] == JLong(t)
    requires 0 <= t < 0x8000_0000_0000_0000 - TIME_MS_30D
    ensures IsIntervalElapsed(json, now) <==> now > t + GetInterval(json)
  {
  }

  // ----- Counters -----

  /**
   * `incrementJsonValue`: a missing counter is created with 0, a present one becomes
   * its `int` value plus one (in 32-bit arithmetic); no other field changes.
   */
  function Incremented(node: map<string, Json>, field: string): (r: map<string, Json>)
    ensures r.Keys == node.Keys + {field}
    ensures field !in node ==> r[field] == JInt(0)
    ensures field in node ==> r[field] == JInt(Wrap32(AsInt(node[field]) + 1))
    ensures forall k :: k in node && k != field ==> r[k] == node[k]
  {
    if field in node then node[field := JInt(Wrap32(AsInt(node[field]) + 1))]
    else node[field := JInt(0)]
  }

  function IncrementedTimes(node: map<string, Json>, field: string, n: nat): map<string, Json>
  {
    if n == 0 then node else Incremented(IncrementedTimes(node, field, n - 1), field)
  }

  /**
   * A counter that did not exist holds `n - 1` after `n` increments: the first increment
   * records 0, not 1.
   */
  lemma {:induction false} CounterAfterIncrements(node: map<string, Json>, field: string, n: nat)
    requires field !in node && 1 <= n <= 0x8000_0000
    ensures field in IncrementedTimes(node, field, n)
    ensures IncrementedTimes(node, field, n)[field] == JInt(n - 1)
  {
    if n > 1 {
      CounterAfterIncrements(node, field, n - 1);
    }
  }

  // ----- Projects -----

  /** A project entry whose `id` reads, as text, as `pid`. */
  predicate IsProject(p: Json, pid: string)
  {
    Has(p, FIELD_PROJECT_ID) && AsText(p.fields[FIELD_PROJECT_ID]) == pid
  }

  function NewProject(pid: string): Json
  {
    JObject(map[FIELD_PROJECT_ID := JText(pid)])
  }

  /**
   * `findById`: the position of the first project with id `pid`; failing that, with
   * `createNew`, a new `{id: pid}` appended at the end. `null` (here `None`) when
   * `projects` is not an array, or nothing matched and nothing was created.
   */
  method FindById(pid: string, projects: Json, createNew: bool) returns (found: Option<nat>, after: Json)
    ensures !projects.JArray? ==> found == None && after == projects
    ensures projects.JArray? && (exists i :: 0 <= i < |projects.items| && IsProject(projects.items[i], pid)) ==>
              after == projects && found.Some? && found.value < |projects.items| &&
              IsProject(projects.items[found.value], pid) &&
              forall j :: 0 <= j < found.value ==> !IsProject(projects.items[j], pid)
    ensures projects.JArray? && (forall i :: 0 <= i < |projects.items| ==> !IsProject(projects.items[i], pid)) ==>
              if createNew then
                found == Some(|projects.items|) && after == JArray(projects.items + [NewProject(pid)])
              else
                found == None && after == projects
  {
    if !projects.JArray? {
      return None, projects;
    }
    var items := projects.items;
    for i := 0 to |items|
      invariant forall j :: 0 <= j < i ==> !IsProject(items[j], pid)
    {
      var p := items[i];
      if p.JObject? && FIELD_PROJECT_ID in p.fields && pid == AsText(p.fields[FIELD_PROJECT_ID]) {
        return Some(i), projects;
      }
    }
    if createNew {
      return Some(|items|), JArray(items + [NewProject(pid)]);
    }
    return None, projects;
  }

  // ----- Environment -----

  /** `getJVMVersion`: VM name and specification version, each `[NA]` when unknown. */
  function GetJvmVersion(vmName: Option<string>, specVersion: Option<string>): (r: string)
    ensures r != MISSING_DATA
    ensures var name := vmName.GetOr(MISSING_DATA);
            |r| >= |name| + 3 && r[..|name|] == name && r[|name|..|name| + 3] == " / " &&
            r[|name| + 3..] == specVersion.GetOr(MISSING_DATA)
  {
    var os := vmName.GetOr(MISSING_DATA);
    var ver := specVersion.GetOr(MISSING_DATA);
    var r := os + " / " + ver;
    assert r[|os|] == ' ' && r[|os| + 1] == '/';
    r
  }

  // ----- Telemetry from the browser -----

  /** What the servlet request carries, as far as the telemetry handler looks at it. */
  datatype TelemetryRequest = TelemetryRequest(
    telemetryParameter: Option<string>,
    httpMethod: string,
    contentType: Option<string>,
    contentLength: int,
    body: string)

  /**
   * The handler's decision: not handled; answered with 400 (recording, for an oversized
   * body, a marker in the project's telemetry); or accepted, with the JSON text to parse.
   */
  datatype TelemetryDecision =
    | NotHandled
    | BadRequest(marker: Option<string>)
    | Accepted(jsonText: string)

  predicate IsTelemetryPost(req: TelemetryRequest)
  {
    req.telemetryParameter.Some? && req.httpMethod == "POST"
  }

  /** The decision chain of `handleClientTelemetryData`. */
  function DecideTelemetry(enabled: bool, req: TelemetryRequest): (d: TelemetryDecision)
    ensures d.NotHandled? <==> !enabled || !IsTelemetryPost(req)
    ensures !d.NotHandled? ==>
              (d.BadRequest? <==>
                 req.contentType != Some("application/json") ||
                 req.contentLength > MAX_TELEMETRY_LENGTH ||
                 '{' !in req.body)
    ensures d.BadRequest? && d.marker.Some? <==>
              enabled && IsTelemetryPost(req) && req.contentType == Some("application/json") &&
              req.contentLength > MAX_TELEMETRY_LENGTH
    ensures d.BadRequest? && d.marker.Some? ==>
              d.marker.value == "Too much telemetry data: " + IntToDecimal(req.contentLength)
    ensures d.Accepted? ==>
              exists k :: 0 <= k < |req.body| && d.jsonText == req.body[k..] &&
                          req.body[k] == '{' && '{' !in req.body[..k]
  {
    IndexOfChar(req.body, '{');
    if !enabled then NotHandled
    else if !IsTelemetryPost(req) then NotHandled
    else if req.contentType.None? || req.contentType.value != "application/json" then BadRequest(None)
    else if req.contentLength > MAX_TELEMETRY_LENGTH then
      BadRequest(Some("Too much telemetry data: " + IntToDecimal(req.contentLength)))
    else if !Contains(req.body, "{") then BadRequest(None)
    else Accepted(req.body[IndexOf(req.body, "{")..])
  }

  /** An explanation before the JSON is skipped: the accepted text starts at the first brace. */
  lemma {:induction false} TelemetryExplanationSkipped(explanation: string, jsonText: string, length: int)
    requires '{' !in explanation && jsonText != [] && jsonText[0] == '{'
    requires length <= MAX_TELEMETRY_LENGTH
    ensures DecideTelemetry(true, TelemetryRequest(Some(""), "POST", Some("application/json"), length,
                                                   explanation + jsonText))
            == Accepted(jsonText)
  {
    var body := explanation + jsonText;
    IndexOfChar(body, '{');
    var k := IndexOf(body, "{");
    assert body[|explanation|] == '{';
    assert k == |explanation|;
    assert body[k..] == jsonText;
  }
}
