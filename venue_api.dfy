/**
 * The venue participant: registers a venue and rolls one back. It checks no
 * other table.
 */
module VenueApi {
  import opened Json
  import opened Http
  import opened Database

  const VenueFields: seq<string> := ["name", "address", "capacity"]

  /**
   * `POST /api/venue/register`. The guards run in order: a missing or empty
   * body, the first missing required field, then `simulate_failure`.
   */
  function RegisterVenue(t: Tables, data: Option<Dict>, newId: string, now: string): (out: (Response, Tables))
    requires newId !in t.venues
    ensures out.0.status in {201, 400, 500}
    ensures out.0.status != 201 ==> out.1 == t
    ensures NoData(data) ==> out.0 == ErrorResponse(400, "No data provided")
    ensures !NoData(data) && MissingField(data.value, VenueFields).Some? ==>
              out.0 == ErrorResponse(400, MissingField(data.value, VenueFields).value + " is required")
    ensures out.0.status == 500 <==>
              !NoData(data) && MissingField(data.value, VenueFields).None?
              && Truthy(Get(data.value, "simulate_failure"))
    ensures out.0.status == 500 ==> out.0 == ErrorResponse(500, "Simulated failure in venue registration")
    ensures out.0.status == 201 ==>
              && out.1 == t.(venues := t.venues[newId := VenueRecord(newId, data.value, now)])
              && |out.1.venues| == |t.venues| + 1
              && Get(out.0.body, "success") == Some(Bool(true))
              && Get(out.0.body, "venue_id") == Some(Str(newId))
  {
    if NoData(data) then (ErrorResponse(400, "No data provided"), t)
    else
      var d := data.value;
      match MissingField(d, VenueFields)
      case Some(f) => (ErrorResponse(400, f + " is required"), t)
      case None =>
        if Truthy(Get(d, "simulate_failure")) then
          (ErrorResponse(500, "Simulated failure in venue registration"), t)
        else
          var body := [("success", Bool(true)),
                       ("venue_id", Str(newId)),
                       ("message", Str("Venue registered successfully"))];
          GetFirst(body, "success", 0);
          GetFirst(body, "venue_id", 1);
          (Response(201, body), t.(venues := t.venues[newId := VenueRecord(newId, d, now)]))
  }

  /** `DELETE /api/venue/rollback/<id>`: 200 and the venue removed, or 404. */
  function RollbackVenue(t: Tables, id: string): (out: (Response, Tables))
    ensures out.0.status == 200 <==> id in t.venues
    ensures out.0.status != 200 ==> out.0 == ErrorResponse(404, "Venue not found")
    ensures out.0.status == 200 ==>
              Get(out.0.body, "message") == Some(Str("Venue " + id + " rolled back successfully"))
    ensures out.1 == t.(venues := t.venues - {id})
  {
    if id in t.venues then
      var body := [("success", Bool(true)),
                   ("message", Str("Venue " + id + " rolled back successfully"))];
      GetFirst(body, "message", 1);
      (Response(200, body), t.(venues := t.venues - {id}))
    else
      (ErrorResponse(404, "Venue not found"), t)
  }

  /** Rolling back the venue a registration just created restores the tables exactly. */
  lemma RegisterThenRollback(t: Tables, data: Option<Dict>, newId: string, now: string)
    requires newId !in t.venues
    requires RegisterVenue(t, data, newId, now).0.status == 201
    ensures RollbackVenue(RegisterVenue(t, data, newId, now).1, newId).0.status == 200
    ensures RollbackVenue(RegisterVenue(t, data, newId, now).1, newId).1 == t
  {
    var t' := RegisterVenue(t, data, newId, now).1;
    RemoveAdded(t.venues, newId, t'.venues);
  }
}
