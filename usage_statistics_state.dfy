/**
 * The mutable side of the usage statistics: the statistics document `json` and the current
 * project, which the code holds as a second reference (`projectJson`) into the document's
 * `projects` array. Here that reference is the project's position in the array.
 */
module UsageStatisticsState {
  import opened Wrappers
  import opened JavaInts
  import opened JavaStrings
  import opened JsonTree
  import opened UsageStatistics
  import opened ProKeys

  const FIELD_ELEMENTS: string := "elements"

  /** `projects[index]` exists in the document and is an object. */
  predicate ProjectAt(json: map<string, Json>, index: nat)
  {
    FIELD_PROJECTS in json && json[FIELD_PROJECTS].JArray? &&
    index < |json[FIELD_PROJECTS].items| && json[FIELD_PROJECTS].items[index].JObject?
  }

  function ProjectFields(json: map<string, Json>, index: nat): map<string, Json>
    requires ProjectAt(json, index)
  {
    json[FIELD_PROJECTS].items[index].fields
  }

  /** The document with new fields for the project at `index`, and nothing else changed. */
  function WithProjectFields(json: map<string, Json>, index: nat, fields: map<string, Json>): (r: map<string, Json>)
    requires ProjectAt(json, index)
    ensures ProjectAt(r, index) && ProjectFields(r, index) == fields
    ensures r.Keys == json.Keys
    ensures forall k :: k in json && k != FIELD_PROJECTS ==> r[k] == json[k]
    ensures |r[FIELD_PROJECTS].items| == |json[FIELD_PROJECTS].items|
    ensures forall i :: 0 <= i < |json[FIELD_PROJECTS].items| && i != index ==>
              r[FIELD_PROJECTS].items[i] == json[FIELD_PROJECTS].items[i]
  {
    var items := json[FIELD_PROJECTS].items;
    json[FIELD_PROJECTS := JArray(items[index := JObject(fields)])]
  }

  /**
   * `updateProjectTelemetryData` on values: every field of an object sent by the client is
   * set on the current project, replacing a field of the same name. Without a current
   * project, or for anything but an object, the document stays as it was.
   */
  function ClientDataMerged(json: map<string, Json>, project: Option<nat>, clientData: Json): (r: map<string, Json>)
    requires project.Some? ==> ProjectAt(json, project.value)
    ensures project.None? || !clientData.JObject? ==> r == json
    ensures project.Some? && clientData.JObject? ==>
              var fields := ProjectFields(json, project.value);
              ProjectAt(r, project.value) &&
              ProjectFields(r, project.value).Keys == fields.Keys + clientData.fields.Keys &&
              (forall k :: k in clientData.fields ==> ProjectFields(r, project.value)[k] == clientData.fields[k]) &&
              (forall k :: k in fields && k !in clientData.fields ==> ProjectFields(r, project.value)[k] == fields[k]) &&
              r == WithProjectFields(json, project.value, ProjectFields(r, project.value))
  {
    if project.Some? && clientData.JObject? then
      WithProjectFields(json, project.value, ProjectFields(json, project.value) + clientData.fields)
    else json
  }

  /** The interval a response asks for, as stored: normalised if it is a long, else 24 hours. */
  function ResponseInterval(response: Json): (r: Int64)
    ensures r == TIME_MS_24H || r == TIME_MS_30D
    ensures r == TIME_MS_30D <==>
              Has(response, FIELD_SEND_INTERVAL) && response.fields[FIELD_SEND_INTERVAL].JLong? &&
              AsLong(response.fields[FIELD_SEND_INTERVAL]) > TIME_MS_30D
  {
    if Has(response, FIELD_SEND_INTERVAL) && response.fields[FIELD_SEND_INTERVAL].JLong? then
      NormalizeInterval(AsLong(response.fields[FIELD_SEND_INTERVAL]))
    else TIME_MS_24H
  }

  /** The fields the response handling may write. */
  predicate ResponseField(k: string)
  {
    k == FIELD_LAST_SENT || k == FIELD_LAST_STATUS || k == FIELD_SEND_INTERVAL ||
    k == FIELD_SERVER_MESSAGE || k == FIELD_PROJECTS
  }

  /** The document, the current project and the message after a reply from the server. */
  datatype SendOutcome = SendOutcome(json: map<string, Json>, project: Option<nat>, message: Option<string>)

  /**
   * The response handling of `sendCurrentStatistics`, on values. A reply without a status
   * changes nothing. A reply with one records the send time, the status, the interval and
   * a textual server message; a status beginning with "200:" also replaces the project list
   * by a single new entry for the current project id, which becomes the current project.
   */
  function AfterResponse(json: map<string, Json>, project: Option<nat>, projectId: string,
                         response: Json, now: Int64): (o: SendOutcome)
    ensures !Has(response, FIELD_LAST_STATUS) ==> o == SendOutcome(json, project, None)
    ensures Has(response, FIELD_LAST_STATUS) ==>
              var status := AsText(response.fields[FIELD_LAST_STATUS]);
              && FIELD_LAST_SENT in o.json && FIELD_LAST_STATUS in o.json && FIELD_SEND_INTERVAL in o.json
              && o.json[FIELD_LAST_SENT] == JLong(now)
              && o.json[FIELD_LAST_STATUS] == JText(status)
              && o.json[FIELD_SEND_INTERVAL] == JLong(ResponseInterval(response))
              && (o.message.Some? <==> Has(response, FIELD_SERVER_MESSAGE) && response.fields[FIELD_SERVER_MESSAGE].JText?)
              && (o.message.Some? ==> FIELD_SERVER_MESSAGE in o.json && o.message.value == response.fields[FIELD_SERVER_MESSAGE].s &&
                                      o.json[FIELD_SERVER_MESSAGE] == JText(o.message.value))
              && (o.message.None? ==> (FIELD_SERVER_MESSAGE in o.json <==> FIELD_SERVER_MESSAGE in json) &&
                                      (FIELD_SERVER_MESSAGE in json ==> o.json[FIELD_SERVER_MESSAGE] == json[FIELD_SERVER_MESSAGE]))
              && (StartsWith(status, "200:") ==>
                    FIELD_PROJECTS in o.json && o.json[FIELD_PROJECTS] == JArray([NewProject(projectId)]) && o.project == Some(0))
              && (!StartsWith(status, "200:") ==>
                    o.project == project && (FIELD_PROJECTS in o.json <==> FIELD_PROJECTS in json) &&
                    (FIELD_PROJECTS in json ==> o.json[FIELD_PROJECTS] == json[FIELD_PROJECTS]))
              && (forall k :: k in o.json && !ResponseField(k) ==> k in json && o.json[k] == json[k])
              && (forall k :: k in json ==> k in o.json)
  {
    if !Has(response, FIELD_LAST_STATUS) then SendOutcome(json, project, None)
    else
      var status := AsText(response.fields[FIELD_LAST_STATUS]);
      var json1 := json[FIELD_LAST_SENT := JLong(now)][FIELD_LAST_STATUS := JText(status)]
                       [FIELD_SEND_INTERVAL := JLong(ResponseInterval(response))];
      var message := if Has(response, FIELD_SERVER_MESSAGE) && response.fields[FIELD_SERVER_MESSAGE].JText?
                     then Some(response.fields[FIELD_SERVER_MESSAGE].s) else None;
      var json2 := if message.Some? then json1[FIELD_SERVER_MESSAGE := JText(message.value)] else json1;
      if StartsWith(status, "200:") then
        SendOutcome(json2[FIELD_PROJECTS := JArray([NewProject(projectId)])], Some(0), message)
      else SendOutcome(json2, project, message)
  }

  /**
   * The interval a reply asks for does not survive being read back: whatever the server
   * requested, the next `getInterval` gives 24 hours.
   */
  lemma {:induction false} IntervalAfterResponseIs24h(json: map<string, Json>, project: Option<nat>, projectId: string,
                                                      response: Json, now: Int64)
    requires Has(response, FIELD_LAST_STATUS)
    ensures GetInterval(AfterResponse(json, project, projectId, response, now).json) == TIME_MS_24H
  {
    var o := AfterResponse(json, project, projectId, response, now);
    assert o.json[FIELD_SEND_INTERVAL] == JLong(ResponseInterval(response));
    CappedIntervalReadsBackAs24h(ResponseInterval(response));
  }

  /** After a reply with a status at time `now`, the next send is due once 24 hours have passed. */
  lemma {:induction false} NextSendADayLater(json: map<string, Json>, project: Option<nat>, projectId: string,
                                             response: Json, now: Int64, later: Int64)
    requires Has(response, FIELD_LAST_STATUS)
    requires 0 <= now < 0x8000_0000_0000_0000 - TIME_MS_30D
    ensures IsIntervalElapsed(AfterResponse(json, project, projectId, response, now).json, later) <==>
            later > now + TIME_MS_24H
  {
    var o := AfterResponse(json, project, projectId, response, now);
    IntervalAfterResponseIs24h(json, project, projectId, response, now);
    DueAfterInterval(o.json, now, later);
  }

  /** What the telemetry handler answers: handled at all, and with status 400. */
  datatype TelemetryAnswer = TelemetryAnswer(handled: bool, badRequest: bool)

  /** The static state of the statistics: the switch, the project id, the document and the current project. */
  class Statistics {
    var enabled: bool
    var projectId: string
    var json: map<string, Json>
    /** `projectJson`: the position of the current project in `projects`, `None` for `null`. */
    var project: Option<nat>

    /** The current project, when there is one, is an object inside the document. */
    ghost predicate Valid()
      reads this
    {
      project.Some? ==> ProjectAt(json, project.value)
    }

    constructor (enabled: bool, projectId: string, json: map<string, Json>)
      ensures Valid()
      ensures this.enabled == enabled && this.projectId == projectId && this.json == json && project == None
    {
      this.enabled := enabled;
      this.projectId := projectId;
      this.json := json;
      project := None;
    }

    /**
     * The project lookup of `init`: an absent `projects` becomes an empty array, and the
     * current project is the first entry with the project id, appended if there is none.
     * A `projects` that is not an array leaves no current project.
     */
    method SelectProject()
      modifies this
      ensures Valid()
      ensures enabled == old(enabled) && projectId == old(projectId)
      ensures FIELD_PROJECTS in json && json.Keys == old(json).Keys + {FIELD_PROJECTS}
      ensures forall k :: k in old(json) && k != FIELD_PROJECTS ==> json[k] == old(json)[k]
      ensures FIELD_PROJECTS in old(json) && !old(json)[FIELD_PROJECTS].JArray? ==>
                json == old(json) && project == None
      ensures !(FIELD_PROJECTS in old(json) && !old(json)[FIELD_PROJECTS].JArray?) ==>
                var before := if FIELD_PROJECTS in old(json) then old(json)[FIELD_PROJECTS].items else [];
                && json[FIELD_PROJECTS].JArray?
                && project.Some?
                && IsProject(json[FIELD_PROJECTS].items[project.value], projectId)
                && (forall j :: 0 <= j < project.value ==> !IsProject(json[FIELD_PROJECTS].items[j], projectId))
                && ((exists i :: 0 <= i < |before| && IsProject(before[i], projectId)) ==>
                      json[FIELD_PROJECTS].items == before)
                && ((forall i :: 0 <= i < |before| ==> !IsProject(before[i], projectId)) ==>
                      json[FIELD_PROJECTS].items == before + [NewProject(projectId)] && project == Some(|before|))
    {
      if FIELD_PROJECTS !in json {
        json := json[FIELD_PROJECTS := JArray([])];
      }
      var found, after := FindById(projectId, json[FIELD_PROJECTS], true);
      json := json[FIELD_PROJECTS := after];
      project := found;
    }

    /**
     * `incrementField`: the counter `fieldName` of the current project, as `incrementJsonValue`
     * defines it. Without a current project the call dereferences `null`.
     */
    method IncrementField(fieldName: string) returns (r: Result<(), Failure>)
      requires Valid()
      modifies this
      ensures Valid()
      ensures enabled == old(enabled) && projectId == old(projectId) && project == old(project)
      ensures old(project).None? ==> r == Err(NullPointerException) && json == old(json)
      ensures old(project).Some? ==>
                r == Ok(()) &&
                json == WithProjectFields(old(json), project.value,
                                          Incremented(ProjectFields(old(json), project.value), fieldName))
    {
      if project.None? {
        return Err(NullPointerException);
      }
      var fields := ProjectFields(json, project.value);
      json := WithProjectFields(json, project.value, Incremented(fields, fieldName));
      return Ok(());
    }

    /**
     * The response handling of `sendCurrentStatistics` for the reply `response` of the
     * server, received at time `now`.
     */
    method SendCurrentStatistics(response: Json, now: Int64) returns (message: Option<string>)
      requires Valid()
      modifies this
      ensures Valid()
      ensures enabled == old(enabled) && projectId == old(projectId)
      ensures SendOutcome(json, project, message) == AfterResponse(old(json), old(project), projectId, response, now)
    {
      message := None;
      if Has(response, FIELD_LAST_STATUS) {
        var status := AsText(response.fields[FIELD_LAST_STATUS]);
        json := json[FIELD_LAST_SENT := JLong(now)];
        json := json[FIELD_LAST_STATUS := JText(status)];
        var interval: Int64;
        if Has(response, FIELD_SEND_INTERVAL) && response.fields[FIELD_SEND_INTERVAL].JLong? {
          interval := NormalizeInterval(AsLong(response.fields[FIELD_SEND_INTERVAL]));
        } else {
          interval := TIME_MS_24H;
        }
        assert interval == ResponseInterval(response);
        json := json[FIELD_SEND_INTERVAL := JLong(interval)];
        if Has(response, FIELD_SERVER_MESSAGE) && response.fields[FIELD_SERVER_MESSAGE].JText? {
          message := Some(response.fields[FIELD_SERVER_MESSAGE].s);
          json := json[FIELD_SERVER_MESSAGE := JText(message.value)];
        }
        if StartsWith(status, "200:") {
          var found, after := FindById(projectId, JArray([]), true);
          assert found == Some(0) && after == JArray([NewProject(projectId)]);
          json := json[FIELD_PROJECTS := after];
          project := found;
        }
      }
    }

    /** `updateProjectTelemetryData`. */
    method UpdateProjectTelemetryData(clientData: Json)
      requires Valid()
      modifies this
      ensures Valid()
      ensures enabled == old(enabled) && projectId == old(projectId) && project == old(project)
      ensures json == ClientDataMerged(old(json), project, clientData)
    {
      if project.Some? && clientData.JObject? {
        var fields := ProjectFields(json, project.value);
        json := WithProjectFields(json, project.value, fields + clientData.fields);
      }
    }

    /**
     * `handleClientTelemetryData`: the decision of `DecideTelemetry`, and what it stores. An
     * oversized body stores the marker under `elements` in the current project; an accepted
     * body stores the fields of the object `parse` makes of it. A body that does not parse
     * (`None`) stores nothing, and the request still counts as handled.
     */
    method HandleClientTelemetryData(req: TelemetryRequest, parse: string -> Option<Json>) returns (a: TelemetryAnswer)
      requires Valid()
      modifies this
      ensures Valid()
      ensures enabled == old(enabled) && projectId == old(projectId) && project == old(project)
      ensures var d := DecideTelemetry(enabled, req);
              && (a.handled <==> !d.NotHandled?)
              && (a.badRequest <==> d.BadRequest?)
              && (d.NotHandled? || (d.BadRequest? && d.marker.None?) || (d.Accepted? && parse(d.jsonText).None?) ==>
                    json == old(json))
              && (d.BadRequest? && d.marker.Some? ==>
                    json == ClientDataMerged(old(json), project, JObject(map[FIELD_ELEMENTS := JText(d.marker.value)])))
              && (d.Accepted? && parse(d.jsonText).Some? ==>
                    json == ClientDataMerged(old(json), project, parse(d.jsonText).value))
    {
      var d := DecideTelemetry(enabled, req);
      match d
      case NotHandled =>
        return TelemetryAnswer(false, false);
      case BadRequest(marker) =>
        if marker.Some? {
          UpdateProjectTelemetryData(JObject(map[FIELD_ELEMENTS := JText(marker.value)]));
        }
        return TelemetryAnswer(true, true);
      case Accepted(text) =>
        var parsed := parse(text);
        if parsed.Some? {
          UpdateProjectTelemetryData(parsed.value);
        }
        return TelemetryAnswer(true, false);
    }
  }
}
