/**
 * The participant services as one deployment: the routes the four
 * participants register under their URL prefixes, each bound to its handler
 * over the shared tables. New identifiers are drawn fresh for the table
 * they go into.
 */
module Services {
  import opened Json
  import opened Strings
  import opened Http
  import opened Database
  import opened SagaModels
  import EventApi
  import EventDetailsApi
  import VenueApi
  import TicketApi

  /**
   * The rules a request path matches: `/register` and `/<id>` (the GET rule,
   * which `/register`, `/list` and `/health` also match), or `/rollback/<id>`,
   * of participant `service` (an index into `ServicePrefixes`); or none.
   */
  datatype PathMatch = ItemPath(service: nat, segment: string) | RollbackPath(service: nat, id: string) | NoPath

  /**
   * The route a request reaches: a register or rollback handler, one of the
   * GET handlers, Flask's automatic OPTIONS answer, a known path under a
   * method none of its rules allows (405), or no rule at all (404).
   */
  datatype Route =
    | RegisterRoute(service: nat)
    | RollbackRoute(service: nat, id: string)
    | ReadRoute(service: nat, segment: string)
    | OptionsRoute
    | MethodNotAllowed
    | NoRoute

  /** A `<id>` path segment: non-empty and free of '/'. */
  predicate IsSegment(s: string) {
    |s| > 0 && '/' !in s
  }

  /** The prefix of participant `k`'s one-segment routes. */
  function ItemPrefix(k: nat): string
    requires k < 4
  {
    BaseUrl + ServicePrefixes[k] + "/"
  }

  function RollbackPrefix(k: nat): string
    requires k < 4
  {
    ItemPrefix(k) + "rollback/"
  }

  /** The first participant, from `k` on, whose prefix the path starts with; 4 when there is none. */
  function ServiceFrom(url: string, k: nat): (r: nat)
    requires k <= 4
    ensures k <= r <= 4
    ensures r < 4 ==> StartsWith(url, ItemPrefix(r))
    decreases 4 - k
  {
    if k == 4 || StartsWith(url, ItemPrefix(k)) then k else ServiceFrom(url, k + 1)
  }

  /**
   * The rules the rest of a path under participant `k`'s prefix matches:
   * `rollback/<id>`, else `<id>` (a single segment).
   */
  function MatchRest(k: nat, rest: string): (r: PathMatch)
    ensures r.ItemPath? ==> r.service == k && IsSegment(r.segment) && rest == r.segment
    ensures r.RollbackPath? ==> r.service == k && IsSegment(r.id) && rest == "rollback/" + r.id
  {
    if StartsWith(rest, "rollback/") && IsSegment(rest[9..]) then
      assert rest == "rollback/" + rest[9..];
      RollbackPath(k, rest[9..])
    else if IsSegment(rest) then ItemPath(k, rest)
    else NoPath
  }

  /** The rules a path matches; no two participants' prefixes overlap. */
  function MatchPath(url: string): (r: PathMatch)
    ensures r.ItemPath? ==> r.service < 4 && IsSegment(r.segment) && url == ItemPrefix(r.service) + r.segment
    ensures r.RollbackPath? ==> r.service < 4 && IsSegment(r.id) && url == RollbackPrefix(r.service) + r.id
  {
    var k := ServiceFrom(url, 0);
    if k == 4 then NoPath
    else
      assert url == ItemPrefix(k) + url[|ItemPrefix(k)|..];
      MatchRest(k, url[|ItemPrefix(k)|..])
  }

  /** The methods the matched rules accept; OPTIONS is added to every rule and HEAD to every GET rule. */
  predicate Allows(m: PathMatch, verb: string) {
    match m
    case ItemPath(_, segment) =>
      verb == "GET" || verb == "HEAD" || verb == "OPTIONS" || (verb == "POST" && segment == "register")
    case RollbackPath(_, _) => verb == "DELETE" || verb == "OPTIONS"
    case NoPath => false
  }

  lemma RegisterUrlIsItem(k: nat)
    requires k < 4
    ensures RegisterUrl(ServicePrefixes[k]) == ItemPrefix(k) + "register"
  {
  }

  /**
   * The route a request reaches. The path selects the rules; the method then
   * selects among them. OPTIONS is answered for every known path, and HEAD
   * goes with GET.
   */
  function ParseRoute(verb: string, url: string): (r: Route)
    ensures r.RegisterRoute? ==> r.service < 4 && verb == "POST" && url == RegisterUrl(ServicePrefixes[r.service])
    ensures r.RollbackRoute? ==>
              && r.service < 4 && verb == "DELETE" && IsSegment(r.id)
              && url == RollbackPrefix(r.service) + r.id
  {
    match MatchPath(url)
    case ItemPath(k, segment) =>
      if verb == "POST" && segment == "register" then
        RegisterUrlIsItem(k);
        RegisterRoute(k)
      else if verb == "GET" || verb == "HEAD" then ReadRoute(k, segment)
      else if verb == "OPTIONS" then OptionsRoute
      else MethodNotAllowed
    case RollbackPath(k, id) =>
      if verb == "DELETE" then RollbackRoute(k, id)
      else if verb == "OPTIONS" then OptionsRoute
      else MethodNotAllowed
    case NoPath => NoRoute
  }

  /**
   * 404 exactly when the path matches no rule, and 405 exactly when it
   * matches some rule but none of them accepts the method.
   */
  lemma ParseRefusals(verb: string, url: string)
    ensures ParseRoute(verb, url).NoRoute? <==> MatchPath(url).NoPath?
    ensures ParseRoute(verb, url).MethodNotAllowed? <==>
              !MatchPath(url).NoPath? && !Allows(MatchPath(url), verb)
  {
  }

  /** Paths of two different participants never share a prefix. */
  lemma ItemPrefixesDiffer(url: string, j: nat, k: nat)
    requires j < 4 && k < 4 && j != k && StartsWith(url, ItemPrefix(k))
    ensures !StartsWith(url, ItemPrefix(j))
  {
    var p, q := ItemPrefix(j), ItemPrefix(k);
    // the prefixes differ at "/api/e" against "/api/v" or "/api/t", or at "/api/event/" against "/api/event-"
    var c := if j + k == 1 then |BaseUrl| + 10 else |BaseUrl| + 5;
    assert url[c] == q[c] != p[c];
    assert |p| <= |url| ==> url[..|p|][c] != p[c];
  }

  /** No participant from `k` on has a prefix the path starts with, exactly when the search comes out at 4. */
  lemma {:induction false} ServiceFromNone(url: string, k: nat)
    requires k <= 4
    ensures ServiceFrom(url, k) == 4 <==> forall j :: k <= j < 4 ==> !StartsWith(url, ItemPrefix(j))
    decreases 4 - k
  {
    if k < 4 {
      ServiceFromNone(url, k + 1);
    }
  }

  /** The `/<id>` rule of participant `k`, stated on the whole path. */
  predicate OnItemPath(url: string, k: nat)
    requires k < 4
  {
    StartsWith(url, ItemPrefix(k)) && IsSegment(url[|ItemPrefix(k)|..])
  }

  /** The `/rollback/<id>` rule of participant `k`, stated on the whole path. */
  predicate OnRollbackPath(url: string, k: nat)
    requires k < 4
  {
    StartsWith(url, RollbackPrefix(k)) && IsSegment(url[|RollbackPrefix(k)|..])
  }

  /** How the rollback rule reads on the rest of a path under participant `k`'s prefix. */
  lemma RollbackRest(url: string, k: nat)
    requires k < 4
    ensures StartsWith(url, RollbackPrefix(k)) ==> StartsWith(url, ItemPrefix(k))
    ensures StartsWith(url, ItemPrefix(k)) ==>
              var rest := url[|ItemPrefix(k)|..];
              && (StartsWith(url, RollbackPrefix(k)) <==> StartsWith(rest, "rollback/"))
              && (StartsWith(url, RollbackPrefix(k)) ==> url[|RollbackPrefix(k)|..] == rest[9..])
  {
    var p, r := ItemPrefix(k), RollbackPrefix(k);
    if StartsWith(url, r) {
      assert url[..|p|] == url[..|r|][..|p|];
    }
    if StartsWith(url, p) {
      var rest := url[|p|..];
      if StartsWith(rest, "rollback/") {
        assert url[..|r|] == url[..|p|] + rest[..9];
      }
      if StartsWith(url, r) {
        assert rest[..9] == url[..|r|][|p|..];
        assert url[|r|..] == rest[9..];
      }
    }
  }

  /** No rule matches exactly when no participant's rollback or one-segment rule does. */
  lemma MatchPathNone(url: string)
    ensures MatchPath(url).NoPath? <==> forall j :: 0 <= j < 4 ==> !OnItemPath(url, j) && !OnRollbackPath(url, j)
  {
    var k := ServiceFrom(url, 0);
    ServiceFromNone(url, 0);
    forall j | 0 <= j < 4 && j != k
      ensures !OnItemPath(url, j) && !OnRollbackPath(url, j)
    {
      RollbackRest(url, j);
      if k < 4 {
        ItemPrefixesDiffer(url, j, k);
      }
    }
    if k < 4 {
      RollbackRest(url, k);
      var rest := url[|ItemPrefix(k)|..];
      assert OnItemPath(url, k) <==> IsSegment(rest);
      assert OnRollbackPath(url, k) <==> StartsWith(rest, "rollback/") && IsSegment(rest[9..]);
    }
  }

  /** Any one-segment URL of a participant matches its own rules: `rollback/<id>`, or else `<id>`. */
  lemma MatchItem(k: nat, rest: string)
    requires k < 4
    ensures MatchPath(ItemPrefix(k) + rest) == MatchRest(k, rest)
  {
    var url := ItemPrefix(k) + rest;
    assert url[..|ItemPrefix(k)|] == ItemPrefix(k);
    assert url[|ItemPrefix(k)|..] == rest;
    forall j | 0 <= j < k
      ensures !StartsWith(url, ItemPrefix(j))
    {
      ItemPrefixesDiffer(url, j, k);
    }
    assert ServiceFrom(url, 0) == k by {
      if k == 1 {
      } else if k == 2 {
        assert ServiceFrom(url, 1) == k;
      } else if k == 3 {
        assert ServiceFrom(url, 2) == k;
        assert ServiceFrom(url, 1) == k;
      }
    }
  }

  /** A registration URL matches only the rules of its own participant, with segment "register". */
  lemma MatchRegister(k: nat)
    requires k < 4
    ensures MatchPath(RegisterUrl(ServicePrefixes[k])) == ItemPath(k, "register")
  {
    RegisterUrlIsItem(k);
    MatchItem(k, "register");
  }

  /** Each registration URL reaches its own participant. */
  lemma ParseRegister(k: nat)
    requires k < 4
    ensures ParseRoute("POST", RegisterUrl(ServicePrefixes[k])) == RegisterRoute(k)
  {
    MatchRegister(k);
  }

  /** A rollback URL matches only the rollback rule of its own participant. */
  lemma MatchRollback(k: nat, id: string)
    requires k < 4 && IsSegment(id)
    ensures MatchPath(RollbackPrefix(k) + id) == RollbackPath(k, id)
  {
    assert RollbackPrefix(k) + id == ItemPrefix(k) + ("rollback/" + id);
    MatchItem(k, "rollback/" + id);
    assert ("rollback/" + id)[9..] == id;
  }

  /** Each rollback URL with a valid identifier reaches its own participant. */
  lemma ParseRollback(k: nat, id: string)
    requires k < 4 && IsSegment(id)
    ensures ParseRoute("DELETE", RollbackPrefix(k) + id) == RollbackRoute(k, id)
  {
    MatchRollback(k, id);
  }

  /** A one-segment URL other than a rollback path matches only its participant's `/<id>` rule. */
  lemma MatchRecord(k: nat, id: string)
    requires k < 4 && IsSegment(id)
    ensures MatchPath(ItemPrefix(k) + id) == ItemPath(k, id)
  {
    MatchItem(k, id);
    // a rollback path would put the '/' after "rollback" inside the segment
    assert |id| >= 9 ==> id[8] == id[..9][8];
  }

  /**
   * A participant path under a method none of its rules allows is refused
   * with 405: a DELETE to a register URL, and a POST to a rollback URL or to
   * a record's URL.
   */
  lemma ParseWrongMethod(k: nat, id: string)
    requires k < 4 && IsSegment(id)
    ensures ParseRoute("DELETE", RegisterUrl(ServicePrefixes[k])) == MethodNotAllowed
    ensures ParseRoute("POST", RollbackPrefix(k) + id) == MethodNotAllowed
    ensures id != "register" ==> ParseRoute("POST", ItemPrefix(k) + id) == MethodNotAllowed
  {
    MatchRegister(k);
    MatchRollback(k, id);
    MatchRecord(k, id);
  }

  /**
   * The handler a route selects, over tables `t` at time `now`: Flask's empty
   * 200 to OPTIONS, 405 for a known path under another method, and 404 for a
   * request no route matches. The GET handlers only read the tables; their
   * answers are not modelled.
   */
  ghost function Dispatch(now: string, t: Tables, route: Route, json: Option<Dict>): (Response, Tables) {
    match route
    case RegisterRoute(k) =>
      if k == 0 then EventApi.RegisterEvent(t, json, FreshKey(t.events.Keys), now)
      else if k == 1 then EventDetailsApi.RegisterEventDetails(t, json, FreshKey(t.eventDetails.Keys), now)
      else if k == 2 then VenueApi.RegisterVenue(t, json, FreshKey(t.venues.Keys), now)
      else TicketApi.RegisterTicket(t, json, FreshKey(t.tickets.Keys), now)
    case RollbackRoute(k, id) =>
      if k == 0 then EventApi.RollbackEvent(t, id)
      else if k == 1 then EventDetailsApi.RollbackEventDetails(t, id)
      else if k == 2 then VenueApi.RollbackVenue(t, id)
      else TicketApi.RollbackTicket(t, id)
    case ReadRoute(_, _) =>
      var answer: Response :| true;
      (answer, t)
    case OptionsRoute => (Response(200, []), t)
    case MethodNotAllowed => (Response(405, []), t)
    case NoRoute => (Response(404, []), t)
  }

  /** The deployment answering one request at time `now`. */
  ghost function Serve(now: string, t: Tables, req: Request): (out: (Reply, Tables))
    ensures out.0.Answered?
  {
    var handled := Dispatch(now, t, ParseRoute(req.verb, req.url), req.json);
    (Answered(handled.0), handled.1)
  }

  /** A POST to a registration URL is answered by that participant's register handler. */
  lemma ServeRegister(now: string, t: Tables, k: nat, json: Option<Dict>)
    requires k < 4
    ensures var h := Dispatch(now, t, RegisterRoute(k), json);
      Serve(now, t, Request("POST", RegisterUrl(ServicePrefixes[k]), json)) == (Answered(h.0), h.1)
  {
    ParseRegister(k);
  }

  /** A DELETE to a rollback URL is answered by that participant's rollback handler. */
  lemma ServeRollback(now: string, t: Tables, k: nat, id: string)
    requires k < 4 && IsSegment(id)
    ensures var h := Dispatch(now, t, RollbackRoute(k, id), None);
      Serve(now, t, Request("DELETE", RollbackPrefix(k) + id, None)) == (Answered(h.0), h.1)
  {
    ParseRollback(k, id);
  }

  /**
   * Requests that reach no register or rollback handler leave the tables
   * alone: 404 off every participant path, 405 for a method the path's rules
   * do not accept, an empty 200 to OPTIONS, and the GET handlers only read.
   */
  lemma ServeUnhandled(now: string, t: Tables, req: Request)
    ensures var r, out := ParseRoute(req.verb, req.url), Serve(now, t, req);
      && (r == NoRoute ==> out == (Answered(Response(404, [])), t))
      && (r == MethodNotAllowed ==> out == (Answered(Response(405, [])), t))
      && (r == OptionsRoute ==> out == (Answered(Response(200, [])), t))
      && (r.ReadRoute? ==> out.1 == t)
  {
  }
}
