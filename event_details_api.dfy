/**
 * The event-details participant: registers the details of an existing event
 * and rolls a details record back.
 */
module EventDetailsApi {
  import opened Json
  import opened Http
  import opened Database

  const DetailsFields: seq<string> := ["event_id", "detailed_description", "duration", "category"]

  /** The request passes the body and required-field guards. */
  predicate WellFormed(data: Option<Dict>) {
    !NoData(data) && MissingField(data.value, DetailsFields).None?
  }

  /**
   * `POST /api/event-details/register`. The guards run in order: body,
   * required fields, the referenced event (a list or dict `event_id` makes the
   * lookup raise, which the handler answers with 500), then `simulate_failure`.
   */
  function RegisterEventDetails(t: Tables, data: Option<Dict>, newId: string, now: string): (out: (Response, Tables))
    requires newId !in t.eventDetails
    ensures out.0.status in {201, 400, 500}
    ensures out.0.status != 201 ==> out.1 == t
    ensures NoData(data) ==> out.0 == ErrorResponse(400, "No data provided")
    ensures !NoData(data) && MissingField(data.value, DetailsFields).Some? ==>
              out.0 == ErrorResponse(400, MissingField(data.value, DetailsFields).value + " is required")
    ensures WellFormed(data) ==>
              var probe := Probe(t.events, GetOrNull(data.value, "event_id"));
              && (probe == NotFound ==> out.0 == ErrorResponse(400, "Related event not found"))
              && (probe.Unhashable? ==> out.0 == ErrorResponse(500, UnhashableMessage(probe.typeName)))
              && (probe == Found && Truthy(Get(data.value, "simulate_failure")) ==>
                    out.0 == ErrorResponse(500, "Simulated failure in event details registration"))
    ensures out.0.status == 201 <==>
              WellFormed(data) && Probe(t.events, GetOrNull(data.value, "event_id")) == Found
              && !Truthy(Get(data.value, "simulate_failure"))
    ensures out.0.status == 201 ==>
              var eventId := GetOrNull(data.value, "event_id");
              && eventId.Str? && eventId.s in t.events
              && out.1 == t.(eventDetails := t.eventDetails[newId := DetailsRecord(newId, eventId, data.value, now)])
              && |out.1.eventDetails| == |t.eventDetails| + 1
              && Get(out.0.body, "success") == Some(Bool(true))
              && Get(out.0.body, "details_id") == Some(Str(newId))
              && Get(out.0.body, "event_id") == Some(eventId)
  {
    if NoData(data) then (ErrorResponse(400, "No data provided"), t)
    else
      var d := data.value;
      match MissingField(d, DetailsFields)
      case Some(f) => (ErrorResponse(400, f + " is required"), t)
      case None =>
        var eventId := GetOrNull(d, "event_id");
        match Probe(t.events, eventId)
        case Unhashable(typeName) => (ErrorResponse(500, UnhashableMessage(typeName)), t)
        case NotFound => (ErrorResponse(400, "Related event not found"), t)
        case Found =>
          if Truthy(Get(d, "simulate_failure")) then
            (ErrorResponse(500, "Simulated failure in event details registration"), t)
          else
            var body := [("success", Bool(true)),
                         ("details_id", Str(newId)),
                         ("event_id", eventId),
                         ("message", Str("Event details registered successfully"))];
            GetFirst(body, "success", 0);
            GetFirst(body, "details_id", 1);
            GetFirst(body, "event_id", 2);
            (Response(201, body),
             t.(eventDetails := t.eventDetails[newId := DetailsRecord(newId, eventId, d, now)]))
  }

  /** `DELETE /api/event-details/rollback/<id>`: 200 and the record removed, or 404. */
  function RollbackEventDetails(t: Tables, id: string): (out: (Response, Tables))
    ensures out.0.status == 200 <==> id in t.eventDetails
    ensures out.0.status != 200 ==> out.0 == ErrorResponse(404, "Event details not found")
    ensures out.0.status == 200 ==>
              Get(out.0.body, "message") == Some(Str("Event details " + id + " rolled back successfully"))
    ensures out.1 == t.(eventDetails := t.eventDetails - {id})
  {
    if id in t.eventDetails then
      var body := [("success", Bool(true)),
                   ("message", Str("Event details " + id + " rolled back successfully"))];
      GetFirst(body, "message", 1);
      (Response(200, body), t.(eventDetails := t.eventDetails - {id}))
    else
      (ErrorResponse(404, "Event details not found"), t)
  }

  /** Rolling back the record a registration just created restores the tables exactly. */
  lemma RegisterThenRollback(t: Tables, data: Option<Dict>, newId: string, now: string)
    requires newId !in t.eventDetails
    requires RegisterEventDetails(t, data, newId, now).0.status == 201
    ensures RollbackEventDetails(RegisterEventDetails(t, data, newId, now).1, newId).0.status == 200
    ensures RollbackEventDetails(RegisterEventDetails(t, data, newId, now).1, newId).1 == t
  {
    var t' := RegisterEventDetails(t, data, newId, now).1;
    RemoveAdded(t.eventDetails, newId, t'.eventDetails);
  }
}
