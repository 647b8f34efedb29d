/**
 * The event participant: registers an event and rolls one back. A handler is
 * a function of the store's tables and the request, returning the response
 * and the tables afterwards.
 */
module EventApi {
  import opened Json
  import opened Http
  import opened Database

  const EventFields: seq<string> := ["name", "description", "date"]

  /**
   * `POST /api/event/register`. The guards run in order: a missing or empty
   * body, then the first missing required field, then `simulate_failure`;
   * only a request that passes all three creates an event, under `newId`.
   */
  function RegisterEvent(t: Tables, data: Option<Dict>, newId: string, now: string): (out: (Response, Tables))
    requires newId !in t.events
    ensures out.0.status in {201, 400, 500}
    ensures out.0.status != 201 ==> out.1 == t
    ensures NoData(data) ==> out.0 == ErrorResponse(400, "No data provided")
    ensures !NoData(data) && MissingField(data.value, EventFields).Some? ==>
              out.0 == ErrorResponse(400, MissingField(data.value, EventFields).value + " is required")
    ensures out.0.status == 500 <==>
              !NoData(data) && MissingField(data.value, EventFields).None?
              && Truthy(Get(data.value, "simulate_failure"))
    ensures out.0.status == 500 ==> out.0 == ErrorResponse(500, "Simulated failure in event registration")
    ensures out.0.status == 201 ==>
              && out.1 == t.(events := t.events[newId := EventRecord(newId, data.value, now)])
              && |out.1.events| == |t.events| + 1
              && Get(out.0.body, "success") == Some(Bool(true))
              && Get(out.0.body, "event_id") == Some(Str(newId))
  {
    if NoData(data) then (ErrorResponse(400, "No data provided"), t)
    else
      var d := data.value;
      match MissingField(d, EventFields)
      case Some(f) => (ErrorResponse(400, f + " is required"), t)
      case None =>
        if Truthy(Get(d, "simulate_failure")) then
          (ErrorResponse(500, "Simulated failure in event registration"), t)
        else
          var body := [("success", Bool(true)),
                       ("event_id", Str(newId)),
                       ("message", Str("Event registered successfully"))];
          GetFirst(body, "success", 0);
          GetFirst(body, "event_id", 1);
          (Response(201, body), t.(events := t.events[newId := EventRecord(newId, d, now)]))
  }

  /** `DELETE /api/event/rollback/<id>`: 200 and the event removed, or 404 when there is none. */
  function RollbackEvent(t: Tables, id: string): (out: (Response, Tables))
    ensures out.0.status == 200 <==> id in t.events
    ensures out.0.status != 200 ==> out.0 == ErrorResponse(404, "Event not found")
    ensures out.0.status == 200 ==>
              Get(out.0.body, "message") == Some(Str("Event " + id + " rolled back successfully"))
    ensures out.1 == t.(events := t.events - {id})
  {
    if id in t.events then
      var body := [("success", Bool(true)),
                   ("message", Str("Event " + id + " rolled back successfully"))];
      GetFirst(body, "message", 1);
      (Response(200, body), t.(events := t.events - {id}))
    else
      (ErrorResponse(404, "Event not found"), t)
  }

  /** Rolling back the event a registration just created restores the tables exactly. */
  lemma RegisterThenRollback(t: Tables, data: Option<Dict>, newId: string, now: string)
    requires newId !in t.events
    requires RegisterEvent(t, data, newId, now).0.status == 201
    ensures RollbackEvent(RegisterEvent(t, data, newId, now).1, newId).0.status == 200
    ensures RollbackEvent(RegisterEvent(t, data, newId, now).1, newId).1 == t
  {
    var t' := RegisterEvent(t, data, newId, now).1;
    RemoveAdded(t.events, newId, t'.events);
  }
}
