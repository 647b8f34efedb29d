/**
 * The ticket participant: registers a ticket for an existing event and venue
 * and rolls a ticket back.
 */
module TicketApi {
  import opened Json
  import opened Http
  import opened Database

  const TicketFields: seq<string> := ["event_id", "venue_id", "ticket_type", "price", "quantity"]

  /** The request passes the body and required-field guards. */
  predicate WellFormed(data: Option<Dict>) {
    !NoData(data) && MissingField(data.value, TicketFields).None?
  }

  /**
   * `POST /api/ticket/register`. The guards run in order: body, required
   * fields, the referenced event, the referenced venue, then `simulate_failure`.
   * A list or dict identifier makes its lookup raise, answered with 500.
   */
  function RegisterTicket(t: Tables, data: Option<Dict>, newId: string, now: string): (out: (Response, Tables))
    requires newId !in t.tickets
    ensures out.0.status in {201, 400, 500}
    ensures out.0.status != 201 ==> out.1 == t
    ensures NoData(data) ==> out.0 == ErrorResponse(400, "No data provided")
    ensures !NoData(data) && MissingField(data.value, TicketFields).Some? ==>
              out.0 == ErrorResponse(400, MissingField(data.value, TicketFields).value + " is required")
    ensures WellFormed(data) ==>
              var eventProbe := Probe(t.events, GetOrNull(data.value, "event_id"));
              var venueProbe := Probe(t.venues, GetOrNull(data.value, "venue_id"));
              && (eventProbe == NotFound ==> out.0 == ErrorResponse(400, "Related event not found"))
              && (eventProbe.Unhashable? ==> out.0 == ErrorResponse(500, UnhashableMessage(eventProbe.typeName)))
              && (eventProbe == Found && venueProbe == NotFound ==>
                    out.0 == ErrorResponse(400, "Related venue not found"))
              && (eventProbe == Found && venueProbe.Unhashable? ==>
                    out.0 == ErrorResponse(500, UnhashableMessage(venueProbe.typeName)))
              && (eventProbe == Found && venueProbe == Found && Truthy(Get(data.value, "simulate_failure")) ==>
                    out.0 == ErrorResponse(500, "Simulated failure in ticket registration"))
    ensures out.0.status == 201 <==>
              WellFormed(data)
              && Probe(t.events, GetOrNull(data.value, "event_id")) == Found
              && Probe(t.venues, GetOrNull(data.value, "venue_id")) == Found
              && !Truthy(Get(data.value, "simulate_failure"))
    ensures out.0.status == 201 ==>
              && out.1 == t.(tickets := t.tickets[newId := TicketRecord(newId, data.value, now)])
              && |out.1.tickets| == |t.tickets| + 1
              && Get(out.0.body, "success") == Some(Bool(true))
              && Get(out.0.body, "ticket_id") == Some(Str(newId))
              && Get(out.0.body, "event_id") == Some(GetOrNull(data.value, "event_id"))
              && Get(out.0.body, "venue_id") == Some(GetOrNull(data.value, "venue_id"))
  {
    if NoData(data) then (ErrorResponse(400, "No data provided"), t)
    else
      var d := data.value;
      match MissingField(d, TicketFields)
      case Some(f) => (ErrorResponse(400, f + " is required"), t)
      case None =>
        var eventId := GetOrNull(d, "event_id");
        var venueId := GetOrNull(d, "venue_id");
        match Probe(t.events, eventId)
        case Unhashable(typeName) => (ErrorResponse(500, UnhashableMessage(typeName)), t)
        case NotFound => (ErrorResponse(400, "Related event not found"), t)
        case Found =>
          match Probe(t.venues, venueId)
          case Unhashable(typeName) => (ErrorResponse(500, UnhashableMessage(typeName)), t)
          case NotFound => (ErrorResponse(400, "Related venue not found"), t)
          case Found =>
            if Truthy(Get(d, "simulate_failure")) then
              (ErrorResponse(500, "Simulated failure in ticket registration"), t)
            else
              (Response(201, TicketCreated(newId, eventId, venueId)),
               t.(tickets := t.tickets[newId := TicketRecord(newId, d, now)]))
  }

  /** The body of the 201 answer. */
  function TicketCreated(newId: string, eventId: Value, venueId: Value): (body: Dict)
    ensures Get(body, "success") == Some(Bool(true))
    ensures Get(body, "ticket_id") == Some(Str(newId))
    ensures Get(body, "event_id") == Some(eventId)
    ensures Get(body, "venue_id") == Some(venueId)
  {
    var body := [("success", Bool(true)),
                 ("ticket_id", Str(newId)),
                 ("event_id", eventId),
                 ("venue_id", venueId),
                 ("message", Str("Ticket registered successfully"))];
    GetFirst(body, "success", 0);
    GetFirst(body, "ticket_id", 1);
    GetFirst(body, "event_id", 2);
    GetFirst(body, "venue_id", 3);
    body
  }

  /** `DELETE /api/ticket/rollback/<id>`: 200 and the ticket removed, or 404. */
  function RollbackTicket(t: Tables, id: string): (out: (Response, Tables))
    ensures out.0.status == 200 <==> id in t.tickets
    ensures out.0.status != 200 ==> out.0 == ErrorResponse(404, "Ticket not found")
    ensures out.0.status == 200 ==>
              Get(out.0.body, "message") == Some(Str("Ticket " + id + " rolled back successfully"))
    ensures out.1 == t.(tickets := t.tickets - {id})
  {
    if id in t.tickets then
      var body := [("success", Bool(true)),
                   ("message", Str("Ticket " + id + " rolled back successfully"))];
      GetFirst(body, "message", 1);
      (Response(200, body), t.(tickets := t.tickets - {id}))
    else
      (ErrorResponse(404, "Ticket not found"), t)
  }

  /** Rolling back the ticket a registration just created restores the tables exactly. */
  lemma RegisterThenRollback(t: Tables, data: Option<Dict>, newId: string, now: string)
    requires newId !in t.tickets
    requires RegisterTicket(t, data, newId, now).0.status == 201
    ensures RollbackTicket(RegisterTicket(t, data, newId, now).1, newId).0.status == 200
    ensures RollbackTicket(RegisterTicket(t, data, newId, now).1, newId).1 == t
  {
    var t' := RegisterTicket(t, data, newId, now).1;
    RemoveAdded(t.tickets, newId, t'.tickets);
  }
}
