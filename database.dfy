/**
 * The shared in-memory store: four entity tables (events, event details,
 * venues, tickets) and the saga transaction table, each a dict from a
 * generated identifier to a record.
 */
module Database {
  import opened Json

  /** One table: record identifier to record. */
  type Table = map<string, Dict>

  /** The four entity tables, the part of the store the participants work on. */
  datatype Tables = Tables(events: Table, eventDetails: Table, venues: Table, tickets: Table)

  /** Removing a key that was just added to a table gives the table back. */
  lemma RemoveAdded(before: Table, key: string, after: Table)
    requires key !in before && key in after && after == before[key := after[key]]
    ensures after - {key} == before
  {
    assert forall j :: j in after - {key} <==> j in before;
  }

  /** The record `create_event` stores. */
  function EventRecord(id: string, data: Dict, now: string): Dict {
    [("id", Str(id)),
     ("name", GetOrNull(data, "name")),
     ("description", GetOrNull(data, "description")),
     ("date", GetOrNull(data, "date")),
     ("created_at", Str(now)),
     ("status", Str("active"))]
  }

  /** The record `create_event_details` stores; `eventId` is passed separately from the data. */
  function DetailsRecord(id: string, eventId: Value, data: Dict, now: string): Dict {
    [("id", Str(id)),
     ("event_id", eventId),
     ("detailed_description", GetOrNull(data, "detailed_description")),
     ("duration", GetOrNull(data, "duration")),
     ("category", GetOrNull(data, "category")),
     ("requirements", GetOrNull(data, "requirements")),
     ("created_at", Str(now)),
     ("status", Str("active"))]
  }

  /** The record `create_venue` stores. */
  function VenueRecord(id: string, data: Dict, now: string): Dict {
    [("id", Str(id)),
     ("name", GetOrNull(data, "name")),
     ("address", GetOrNull(data, "address")),
     ("capacity", GetOrNull(data, "capacity")),
     ("facilities", GetOrNull(data, "facilities")),
     ("created_at", Str(now)),
     ("status", Str("active"))]
  }

  /** The record `create_ticket` stores. */
  function TicketRecord(id: string, data: Dict, now: string): Dict {
    [("id", Str(id)),
     ("event_id", GetOrNull(data, "event_id")),
     ("venue_id", GetOrNull(data, "venue_id")),
     ("ticket_type", GetOrNull(data, "ticket_type")),
     ("price", GetOrNull(data, "price")),
     ("quantity", GetOrNull(data, "quantity")),
     ("created_at", Str(now)),
     ("status", Str("active"))]
  }

  /**
   * The record `create_transaction` stores under the generated `id`. Any `id`
   * in the caller's data is ignored; status, steps and metadata default to
   * 'pending', [] and {}.
   */
  function TransactionRecord(id: string, data: Dict, now: string): (r: Dict)
    ensures Get(r, "id") == Some(Str(id))
    ensures Get(r, "status") == Some(GetOr(data, "status", Str("pending")))
    ensures Get(r, "steps") == Some(GetOr(data, "steps", List([])))
    ensures Get(r, "metadata") == Some(GetOr(data, "metadata", Object([])))
    ensures Get(r, "created_at") == Get(r, "updated_at") == Some(Str(now))
  {
    var r := [("id", Str(id)),
              ("status", GetOr(data, "status", Str("pending"))),
              ("steps", GetOr(data, "steps", List([]))),
              ("created_at", Str(now)),
              ("updated_at", Str(now)),
              ("metadata", GetOr(data, "metadata", Object([])))];
    GetFirst(r, "id", 0);
    GetFirst(r, "status", 1);
    GetFirst(r, "steps", 2);
    GetFirst(r, "created_at", 3);
    GetFirst(r, "updated_at", 4);
    GetFirst(r, "metadata", 5);
    r
  }

  /** The record after `record.update(updates)` and a refreshed `updated_at`. */
  function UpdatedRecord(record: Dict, updates: Dict, now: string): Dict {
    Put(Update(record, updates), "updated_at", Str(now))
  }

  /**
   * An update overwrites the fields it names, keeps every other field, and
   * always refreshes `updated_at`.
   */
  lemma UpdatedRecordFields(record: Dict, updates: Dict, now: string, k: string)
    requires forall i, j :: 0 <= i < j < |updates| ==> updates[i].0 != updates[j].0
    ensures Get(UpdatedRecord(record, updates, now), k) ==
              if k == "updated_at" then Some(Str(now))
              else if HasKey(updates, k) then Get(updates, k)
              else Get(record, k)
  {
    GetPut(Update(record, updates), "updated_at", Str(now), k);
    GetUpdate(record, updates, k);
  }

  /** The registry after `update_transaction(id, updates)`: unchanged when `id` is absent. */
  function Updated(registry: Table, id: string, updates: Dict, now: string): Table {
    if id in registry then registry[id := UpdatedRecord(registry[id], updates, now)] else registry
  }

  /** `uuid4()` never repeats; in the model, any identifier that is not a key yet. */
  ghost function MaxLength(keys: set<string>): nat
  {
    if keys == {} then 0
    else
      var x :| x in keys;
      var m := MaxLength(keys - {x});
      if |x| > m then |x| else m
  }

  lemma {:induction false} MaxLengthBound(keys: set<string>, y: string)
    requires y in keys
    ensures |y| <= MaxLength(keys)
    decreases keys
  {
    var x :| x in keys && MaxLength(keys) == (var m := MaxLength(keys - {x}); if |x| > m then |x| else m);
    if y != x {
      MaxLengthBound(keys - {x}, y);
    }
  }

  /** A definite fresh identifier: a run of 'x' longer than every existing key. */
  ghost function FreshKey(keys: set<string>): (k: string)
    ensures k !in keys
    ensures |k| > 0 && forall c :: c in k ==> c == 'x'
  {
    var k := seq(MaxLength(keys) + 1, _ => 'x');
    assert k !in keys by {
      if k in keys { MaxLengthBound(keys, k); }
    }
    k
  }

  /** Table sizes as `get_database_status` reports them. */
  datatype DatabaseStatus = DatabaseStatus(
    eventsCount: nat,
    eventDetailsCount: nat,
    venuesCount: nat,
    ticketsCount: nat,
    transactionsCount: nat,
    totalRecords: nat)

  /**
   * Lists the records of a table, one per key. The model does not fix the
   * order; `keys` says which record sits where.
   */
  method ValuesOf(m: Table) returns (rs: seq<Dict>, ghost keys: seq<string>)
    ensures |rs| == |keys| == |m|
    ensures forall i :: 0 <= i < |keys| ==> keys[i] in m && rs[i] == m[keys[i]]
    ensures forall i, j :: 0 <= i < j < |keys| ==> keys[i] != keys[j]
    ensures forall k :: k in m ==> k in keys
  {
    var rest := m.Keys;
    rs, keys := [], [];
    while rest != {}
      invariant rest <= m.Keys
      invariant |rs| == |keys| && |keys| + |rest| == |m.Keys|
      invariant forall i :: 0 <= i < |keys| ==> keys[i] in m && keys[i] !in rest && rs[i] == m[keys[i]]
      invariant forall i, j :: 0 <= i < j < |keys| ==> keys[i] != keys[j]
      invariant forall k :: k in m ==> k in rest || k in keys
      decreases rest
    {
      var k :| k in rest;
      rs, keys := rs + [m[k]], keys + [k];
      rest := rest - {k};
    }
  }

  class SharedDatabase {
    var events: Table
    var eventDetails: Table
    var venues: Table
    var tickets: Table
    var transactions: Table

    constructor ()
      ensures events == eventDetails == venues == tickets == transactions == map[]
    {
      events, eventDetails, venues, tickets, transactions := map[], map[], map[], map[], map[];
    }

    /** The entity tables as one value. */
    function Entities(): Tables
      reads this
    {
      Tables(events, eventDetails, venues, tickets)
    }

    // ----- events -----

    method CreateEvent(data: Dict, now: string) returns (id: string)
      modifies this
      ensures id !in old(events) && events == old(events)[id := EventRecord(id, data, now)]
      ensures eventDetails == old(eventDetails) && venues == old(venues)
      ensures tickets == old(tickets) && transactions == old(transactions)
    {
      ghost var w := FreshKey(events.Keys);
      id :| id !in events;
      events := events[id := EventRecord(id, data, now)];
    }

    method DeleteEvent(id: string) returns (ok: bool)
      modifies this
      ensures ok == (id in old(events)) && events == old(events) - {id}
      ensures eventDetails == old(eventDetails) && venues == old(venues)
      ensures tickets == old(tickets) && transactions == old(transactions)
    {
      ok := id in events;
      if ok {
        events := events - {id};
      }
    }

    function GetEvent(id: string): (r: Option<Dict>)
      reads this
      ensures r.Some? <==> id in events
      ensures r.Some? ==> r.value == events[id]
    {
      if id in events then Some(events[id]) else None
    }

    method ListEvents() returns (rs: seq<Dict>, ghost keys: seq<string>)
      ensures |rs| == |keys| == |events|
      ensures forall i :: 0 <= i < |keys| ==> keys[i] in events && rs[i] == events[keys[i]]
      ensures forall i, j :: 0 <= i < j < |keys| ==> keys[i] != keys[j]
    {
      rs, keys := ValuesOf(events);
    }

    // ----- event details -----

    method CreateEventDetails(eventId: Value, data: Dict, now: string) returns (id: string)
      modifies this
      ensures id !in old(eventDetails)
      ensures eventDetails == old(eventDetails)[id := DetailsRecord(id, eventId, data, now)]
      ensures events == old(events) && venues == old(venues)
      ensures tickets == old(tickets) && transactions == old(transactions)
    {
      ghost var w := FreshKey(eventDetails.Keys);
      id :| id !in eventDetails;
      eventDetails := eventDetails[id := DetailsRecord(id, eventId, data, now)];
    }

    method DeleteEventDetails(id: string) returns (ok: bool)
      modifies this
      ensures ok == (id in old(eventDetails)) && eventDetails == old(eventDetails) - {id}
      ensures events == old(events) && venues == old(venues)
      ensures tickets == old(tickets) && transactions == old(transactions)
    {
      ok := id in eventDetails;
      if ok {
        eventDetails := eventDetails - {id};
      }
    }

    function GetEventDetails(id: string): (r: Option<Dict>)
      reads this
      ensures r.Some? <==> id in eventDetails
      ensures r.Some? ==> r.value == eventDetails[id]
    {
      if id in eventDetails then Some(eventDetails[id]) else None
    }

    method ListEventDetails() returns (rs: seq<Dict>, ghost keys: seq<string>)
      ensures |rs| == |keys| == |eventDetails|
      ensures forall i :: 0 <= i < |keys| ==> keys[i] in eventDetails && rs[i] == eventDetails[keys[i]]
      ensures forall i, j :: 0 <= i < j < |keys| ==> keys[i] != keys[j]
    {
      rs, keys := ValuesOf(eventDetails);
    }

    // ----- venues -----

    method CreateVenue(data: Dict, now: string) returns (id: string)
      modifies this
      ensures id !in old(venues) && venues == old(venues)[id := VenueRecord(id, data, now)]
      ensures events == old(events) && eventDetails == old(eventDetails)
      ensures tickets == old(tickets) && transactions == old(transactions)
    {
      ghost var w := FreshKey(venues.Keys);
      id :| id !in venues;
      venues := venues[id := VenueRecord(id, data, now)];
    }

    method DeleteVenue(id: string) returns (ok: bool)
      modifies this
      ensures ok == (id in old(venues)) && venues == old(venues) - {id}
      ensures events == old(events) && eventDetails == old(eventDetails)
      ensures tickets == old(tickets) && transactions == old(transactions)
    {
      ok := id in venues;
      if ok {
        venues := venues - {id};
      }
    }

    function GetVenue(id: string): (r: Option<Dict>)
      reads this
      ensures r.Some? <==> id in venues
      ensures r.Some? ==> r.value == venues[id]
    {
      if id in venues then Some(venues[id]) else None
    }

    method ListVenues() returns (rs: seq<Dict>, ghost keys: seq<string>)
      ensures |rs| == |keys| == |venues|
      ensures forall i :: 0 <= i < |keys| ==> keys[i] in venues && rs[i] == venues[keys[i]]
      ensures forall i, j :: 0 <= i < j < |keys| ==> keys[i] != keys[j]
    {
      rs, keys := ValuesOf(venues);
    }

    // ----- tickets -----

    method CreateTicket(data: Dict, now: string) returns (id: string)
      modifies this
      ensures id !in old(tickets) && tickets == old(tickets)[id := TicketRecord(id, data, now)]
      ensures events == old(events) && eventDetails == old(eventDetails)
      ensures venues == old(venues) && transactions == old(transactions)
    {
      ghost var w := FreshKey(tickets.Keys);
      id :| id !in tickets;
      tickets := tickets[id := TicketRecord(id, data, now)];
    }

    method DeleteTicket(id: string) returns (ok: bool)
      modifies this
      ensures ok == (id in old(tickets)) && tickets == old(tickets) - {id}
      ensures events == old(events) && eventDetails == old(eventDetails)
      ensures venues == old(venues) && transactions == old(transactions)
    {
      ok := id in tickets;
      if ok {
        tickets := tickets - {id};
      }
    }

    function GetTicket(id: string): (r: Option<Dict>)
      reads this
      ensures r.Some? <==> id in tickets
      ensures r.Some? ==> r.value == tickets[id]
    {
      if id in tickets then Some(tickets[id]) else None
    }

    method ListTickets() returns (rs: seq<Dict>, ghost keys: seq<string>)
      ensures |rs| == |keys| == |tickets|
      ensures forall i :: 0 <= i < |keys| ==> keys[i] in tickets && rs[i] == tickets[keys[i]]
      ensures forall i, j :: 0 <= i < j < |keys| ==> keys[i] != keys[j]
    {
      rs, keys := ValuesOf(tickets);
    }

    // ----- saga transactions -----

    method CreateTransaction(data: Dict, now: string) returns (id: string)
      modifies this
      ensures id !in old(transactions)
      ensures transactions == old(transactions)[id := TransactionRecord(id, data, now)]
      ensures Entities() == old(Entities())
    {
      ghost var w := FreshKey(transactions.Keys);
      id :| id !in transactions;
      transactions := transactions[id := TransactionRecord(id, data, now)];
    }

    method UpdateTransaction(id: string, updates: Dict, now: string) returns (ok: bool)
      modifies this
      ensures ok == (id in old(transactions))
      ensures transactions == Updated(old(transactions), id, updates, now)
      ensures Entities() == old(Entities())
    {
      ok := id in transactions;
      if ok {
        transactions := transactions[id := UpdatedRecord(transactions[id], updates, now)];
      }
    }

    function GetTransaction(id: string): (r: Option<Dict>)
      reads this
      ensures r.Some? <==> id in transactions
      ensures r.Some? ==> r.value == transactions[id]
    {
      if id in transactions then Some(transactions[id]) else None
    }

    method ListTransactions() returns (rs: seq<Dict>, ghost keys: seq<string>)
      ensures |rs| == |keys| == |transactions|
      ensures forall i :: 0 <= i < |keys| ==> keys[i] in transactions && rs[i] == transactions[keys[i]]
      ensures forall i, j :: 0 <= i < j < |keys| ==> keys[i] != keys[j]
    {
      rs, keys := ValuesOf(transactions);
    }

    /** The total counts the four entity tables only; transactions are reported apart. */
    function GetDatabaseStatus(): (r: DatabaseStatus)
      reads this
      ensures r.totalRecords == r.eventsCount + r.eventDetailsCount + r.venuesCount + r.ticketsCount
      ensures r.eventsCount == |events| && r.eventDetailsCount == |eventDetails|
      ensures r.venuesCount == |venues| && r.ticketsCount == |tickets|
      ensures r.transactionsCount == |transactions|
    {
      DatabaseStatus(|events|, |eventDetails|, |venues|, |tickets|, |transactions|,
                     |events| + |eventDetails| + |venues| + |tickets|)
    }
  }
}
