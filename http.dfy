/**
 * The request/response boundary between the orchestrator and the participant
 * services, and the checks every participant handler shares.
 */
module Http {
  import opened Json

  /** An outgoing call: HTTP method, URL and the JSON body (`json=`), if any. */
  datatype Request = Request(verb: string, url: string, json: Option<Dict>)

  /** A participant's answer: status code and JSON body. */
  datatype Response = Response(status: int, body: Dict)

  /**
   * What the orchestrator observes for one call: an answer, a transport failure
   * (a `requests` exception: timeout, refused connection, ...), or any other
   * exception raised while making the call.
   */
  datatype Reply =
    | Answered(response: Response)
    | RequestError(reason: string)
    | Unexpected(reason: string)

  /** `jsonify({'error': message}), status` */
  function ErrorResponse(status: int, message: string): Response {
    Response(status, [("error", Str(message))])
  }

  /** `not data` for the parsed request body: no body, or an empty object. */
  predicate NoData(data: Option<Dict>) {
    data.None? || data.value == []
  }

  /** The first field of `required`, in order, that `data` lacks. */
  function MissingField(data: Dict, required: seq<string>): (r: Option<string>)
  {
    if |required| == 0 then None
    else if !HasKey(data, required[0]) then Some(required[0])
    else
      MissingField(data, required[1..])
  }

  /**
   * The missing field is reported exactly when some required field is absent,
   * and it is the first absent one in the order given.
   */
  lemma {:induction false} MissingFieldFirst(data: Dict, required: seq<string>)
    ensures MissingField(data, required).None? <==> forall j :: 0 <= j < |required| ==> HasKey(data, required[j])
    ensures var r := MissingField(data, required);
      r.Some? ==> exists i :: 0 <= i < |required| && required[i] == r.value
                    && !HasKey(data, r.value)
                    && forall j :: 0 <= j < i ==> HasKey(data, required[j])
  {
    if |required| != 0 && HasKey(data, required[0]) {
      var r := MissingField(data, required[1..]);
      MissingFieldFirst(data, required[1..]);
      forall j | 1 <= j < |required|
        ensures required[j] == required[1..][j - 1]
      {
      }
      if r.Some? {
        var i :| 0 <= i < |required[1..]| && required[1..][i] == r.value
                  && !HasKey(data, r.value)
                  && forall j :: 0 <= j < i ==> HasKey(data, required[1..][j]);
        assert required[i + 1] == r.value;
        forall j | 0 <= j < i + 1
          ensures HasKey(data, required[j])
        {
          if j > 0 { assert required[j] == required[1..][j - 1]; }
        }
      }
    }
  }

  /** The outcome of `db.get_x(data['x_id'])` followed by `if not x`. */
  datatype Lookup = Found | NotFound | Unhashable(typeName: string)

  /**
   * Looks a request-supplied key up in a table. Table keys are strings, so a
   * number, boolean or null key finds nothing, while a list or object key makes
   * the dict lookup raise.
   */
  function Probe(table: map<string, Dict>, key: Value): (r: Lookup)
    ensures r == Found <==> key.Str? && key.s in table && table[key.s] != []
    ensures r.Unhashable? <==> key.List? || key.Object?
  {
    match key
    case Str(s) => if s in table && table[s] != [] then Found else NotFound
    case List(_) => Unhashable("list")
    case Object(_) => Unhashable("dict")
    case _ => NotFound
  }

  /** The message of the exception an unhashable lookup raises. */
  function UnhashableMessage(typeName: string): string {
    "unhashable type: '" + typeName + "'"
  }
}
