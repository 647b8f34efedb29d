/**
 * The saga orchestrator. It runs a transaction's steps in order against the
 * participants, stops at the first step that does not succeed, compensates
 * the completed steps in reverse order, and reports the outcome.
 *
 * The participants and the transport are one function `call` from the
 * shared tables and a request to a reply and the tables afterwards. The
 * whole run is specified by the functions `Forward`, `Compensate` and
 * `RunSaga`; the class `SagaOrchestrator` performs it step by step and is
 * proved to agree with them.
 */
module SagaExecution {
  import opened Json
  import opened Strings
  import opened Http
  import opened Database
  import opened SagaModels

  /** The participants behind the transport: tables and request to reply and new tables. */
  type Call = (Tables, Request) -> (Reply, Tables)

  /** One request the orchestrator sent and the reply it observed. */
  datatype Exchange = Exchange(request: Request, reply: Reply)

  /** `response.status_code in [200, 201]` after a step's call. */
  predicate ForwardSucceeded(reply: Reply) {
    reply.Answered? && reply.response.status in {200, 201}
  }

  /** `response.status_code in [200, 204]` after a compensating call. */
  predicate RollbackSucceeded(reply: Reply) {
    reply.Answered? && reply.response.status in {200, 204}
  }

  // ----- payload preparation -----

  /** The identifiers copied from earlier results into a payload, in the order they are copied. */
  const IdFields: seq<string> := ["event_id", "venue_id", "details_id"]

  /** `if step.result:` — a result is present and non-empty. */
  predicate HasResult(s: SagaStep) {
    s.result.Some? && |s.result.value| != 0
  }

  function CopyId(payload: Dict, result: Dict, key: string): Dict {
    if HasKey(result, key) then Put(payload, key, Get(result, key).value) else payload
  }

  /** Copies `event_id`, `venue_id` and `details_id` from one result, where present. */
  function CopyIds(payload: Dict, result: Dict): Dict {
    CopyId(CopyId(CopyId(payload, result, "event_id"), result, "venue_id"), result, "details_id")
  }

  /** The payload sent for a step: its template updated from each completed step's result, in order. */
  function PreparedPayload(template: Dict, completed: seq<SagaStep>): Dict
    decreases |completed|
  {
    if |completed| == 0 then template
    else
      var n := |completed| - 1;
      var p := PreparedPayload(template, completed[..n]);
      if HasResult(completed[n]) then CopyIds(p, completed[n].result.value) else p
  }

  /**
   * The same payload read off the first `n` entries of the step list: the
   * completed steps among them are taken in list order (`PayloadFromCompleted`).
   */
  function PayloadFrom(template: Dict, steps: seq<SagaStep>, n: nat): Dict
    requires n <= |steps|
    decreases n
  {
    if n == 0 then template
    else
      var p := PayloadFrom(template, steps, n - 1);
      var s := steps[n - 1];
      if s.status == StepStatus.Completed && HasResult(s) then CopyIds(p, s.result.value) else p
  }

  /** Preparing from one more completed step applies that step's identifiers last. */
  lemma PreparedPayloadSnoc(template: Dict, completed: seq<SagaStep>, s: SagaStep)
    ensures PreparedPayload(template, completed + [s]) ==
              if HasResult(s) then CopyIds(PreparedPayload(template, completed), s.result.value)
              else PreparedPayload(template, completed)
  {
    assert (completed + [s])[..|completed|] == completed;
  }

  /** Preparing from one more entry of `completed` applies that entry's identifiers last. */
  lemma PreparedPayloadPrefix(template: Dict, completed: seq<SagaStep>, k: nat)
    requires k < |completed|
    ensures PreparedPayload(template, completed[..k + 1]) ==
              if HasResult(completed[k]) then CopyIds(PreparedPayload(template, completed[..k]), completed[k].result.value)
              else PreparedPayload(template, completed[..k])
  {
    assert completed[..k + 1][..k] == completed[..k];
  }

  /** Preparing from the list is preparing from its completed steps. */
  lemma {:induction false} PayloadFromCompleted(template: Dict, steps: seq<SagaStep>, n: nat)
    requires n <= |steps|
    ensures PayloadFrom(template, steps, n) == PreparedPayload(template, CompletedSteps(steps[..n]))
    decreases n
  {
    if n != 0 {
      var prefix, s := steps[..n - 1], steps[n - 1];
      PayloadFromCompleted(template, steps, n - 1);
      assert steps[..n] == prefix + [s];
      CompletedPayloadSnoc(template, prefix, s);
    }
  }

  /** Preparing from the whole list is preparing from all of its completed steps. */
  lemma PayloadFromAll(template: Dict, steps: seq<SagaStep>)
    ensures PayloadFrom(template, steps, |steps|) == PreparedPayload(template, CompletedSteps(steps))
  {
    PayloadFromCompleted(template, steps, |steps|);
    assert steps[..|steps|] == steps;
  }

  /** One more step in the list adds its identifiers last, if it is completed. */
  lemma CompletedPayloadSnoc(template: Dict, prefix: seq<SagaStep>, s: SagaStep)
    ensures PreparedPayload(template, CompletedSteps(prefix + [s])) ==
              if s.status == StepStatus.Completed && HasResult(s)
              then CopyIds(PreparedPayload(template, CompletedSteps(prefix)), s.result.value)
              else PreparedPayload(template, CompletedSteps(prefix))
  {
    var front := prefix + [s];
    assert front[..|prefix|] == prefix;
    CompletedStepsLast(front);
    if s.status == StepStatus.Completed {
      PreparedPayloadSnoc(template, CompletedSteps(prefix), s);
    } else {
      assert CompletedSteps(front) == CompletedSteps(prefix);
    }
  }

  /** Step `s` supplies identifier `key`: it has a non-empty result that binds `key`. */
  predicate Supplies(s: SagaStep, key: string) {
    HasResult(s) && HasKey(s.result.value, key)
  }

  lemma CopyIdsLookup(payload: Dict, result: Dict, key: string)
    ensures Get(CopyIds(payload, result), key) ==
              if key in IdFields && HasKey(result, key) then Get(result, key) else Get(payload, key)
  {
    var p1 := CopyId(payload, result, "event_id");
    var p2 := CopyId(p1, result, "venue_id");
    if HasKey(result, "event_id") { GetPut(payload, "event_id", Get(result, "event_id").value, key); }
    if HasKey(result, "venue_id") { GetPut(p1, "venue_id", Get(result, "venue_id").value, key); }
    if HasKey(result, "details_id") { GetPut(p2, "details_id", Get(result, "details_id").value, key); }
  }

  /**
   * A field of the prepared payload reads as in the template when it is not
   * an identifier field, or when no completed step supplies it.
   */
  lemma {:induction false} PreparedPayloadTemplate(template: Dict, completed: seq<SagaStep>, key: string)
    requires key !in IdFields || forall j :: 0 <= j < |completed| ==> !Supplies(completed[j], key)
    ensures Get(PreparedPayload(template, completed), key) == Get(template, key)
    decreases |completed|
  {
    if |completed| != 0 {
      var n := |completed| - 1;
      assert forall j :: 0 <= j < n ==> completed[..n][j] == completed[j];
      PreparedPayloadTemplate(template, completed[..n], key);
      if HasResult(completed[n]) {
        CopyIdsLookup(PreparedPayload(template, completed[..n]), completed[n].result.value, key);
      }
    }
  }

  /**
   * An identifier field supplied by completed step `j` and by no later
   * completed step reads as in step `j`'s result: the last supplier wins.
   */
  lemma {:induction false} PreparedPayloadLastSupplier(template: Dict, completed: seq<SagaStep>, key: string, j: nat)
    requires key in IdFields && j < |completed| && Supplies(completed[j], key)
    requires forall j' :: j < j' < |completed| ==> !Supplies(completed[j'], key)
    ensures Get(PreparedPayload(template, completed), key) == Get(completed[j].result.value, key)
    decreases |completed|
  {
    var n := |completed| - 1;
    var front, last := completed[..n], completed[n];
    var p := PreparedPayload(template, front);
    assert PreparedPayload(template, completed) == if HasResult(last) then CopyIds(p, last.result.value) else p;
    if HasResult(last) {
      CopyIdsLookup(p, last.result.value, key);
    }
    if j < n {
      assert Get(p, key) == Get(completed[j].result.value, key) by {
        assert forall j' :: j < j' < n ==> front[j'] == completed[j'];
        assert front[j] == completed[j];
        PreparedPayloadLastSupplier(template, front, key, j);
      }
      assert !Supplies(last, key);
    }
  }

  /**
   * `rollback_url.replace("{key}", str(value))` for each result entry, in
   * order, whose key ends with `_id`.
   */
  function FillPlaceholders(url: string, items: Dict): string
    decreases |items|
  {
    if |items| == 0 then url
    else
      var key := items[0].0;
      var u := if EndsWith(key, "_id") then Replace(url, "{" + key + "}", Render(items[0].1)) else url;
      FillPlaceholders(u, items[1..])
  }

  /** A URL without a '{' has no placeholder, and filling leaves it unchanged. */
  lemma {:induction false} FillNoPlaceholders(url: string, items: Dict)
    requires '{' !in url
    ensures FillPlaceholders(url, items) == url
    decreases |items|
  {
    if |items| != 0 {
      var key := items[0].0;
      if EndsWith(key, "_id") {
        var pat := "{" + key + "}";
        forall i | 0 <= i <= |url|
          ensures !OccursAt(pat, url, i)
        {
          if i + |pat| <= |url| {
            assert url[i] in url;
            assert url[i..i + |pat|][0] != pat[0];
          }
        }
        ReplaceAbsent(url, pat, Render(items[0].1));
      }
      FillNoPlaceholders(url, items[1..]);
    }
  }

  /** A placeholder other than `{key}` does not occur in `prefix + "{key}"`. */
  lemma OtherPlaceholderAbsent(prefix: string, key: string, other: string)
    requires '{' !in prefix && '{' !in key && '}' !in key && other != key
    ensures !Occurs("{" + other + "}", prefix + "{" + key + "}")
  {
    var s := prefix + "{" + key + "}";
    var pat := "{" + other + "}";
    forall i | 0 <= i <= |s|
      ensures !OccursAt(pat, s, i)
    {
      if i + |pat| <= |s| {
        var w := s[i..i + |pat|];
        if i < |prefix| {
          assert w[0] == prefix[i];
          assert prefix[i] in prefix;
        } else if i > |prefix| {
          assert w[0] == s[i];
          if i < |prefix| + 1 + |key| {
            assert s[i] == key[i - |prefix| - 1];
            assert key[i - |prefix| - 1] in key;
          }
        } else if |other| < |key| {
          assert w[|other| + 1] == key[|other|];
          assert key[|other|] in key;
          assert w[|other| + 1] != pat[|other| + 1];
        } else {
          var x :| 0 <= x < |key| && other[x] != key[x];
          assert w[1 + x] == key[x];
          assert w[1 + x] != pat[1 + x];
        }
      }
    }
  }

  /**
   * Filling a rollback URL template `prefix + "{key}"` from a result yields
   * `prefix` followed by the rendered value the result binds to `key`, and
   * leaves the template as it is when the result has no `key`. Every other
   * character is kept.
   */
  lemma {:induction false} FillTemplate(prefix: string, key: string, items: Dict)
    requires '{' !in prefix && '{' !in key && '}' !in key && EndsWith(key, "_id")
    requires HasKey(items, key) ==> '{' !in Render(Get(items, key).value)
    ensures FillPlaceholders(prefix + "{" + key + "}", items) ==
              if HasKey(items, key) then prefix + Render(Get(items, key).value) else prefix + "{" + key + "}"
    decreases |items|
  {
    var url := prefix + "{" + key + "}";
    if |items| != 0 {
      var k := items[0].0;
      var v := items[0].1;
      if k == key {
        var pat := "{" + key + "}";
        assert url == prefix + pat;
        ReplaceSkipsPrefix(prefix, pat, pat, Render(v));
        assert Replace(pat, pat, Render(v)) == Render(v) by {
          assert pat[..|pat|] == pat;
          assert pat[|pat|..] == [];
        }
        assert '{' !in prefix + Render(v);
        FillNoPlaceholders(prefix + Render(v), items[1..]);
      } else {
        if EndsWith(k, "_id") {
          OtherPlaceholderAbsent(prefix, key, k);
          ReplaceAbsent(url, "{" + k + "}", Render(v));
        }
        FillTemplate(prefix, key, items[1..]);
      }
    }
  }

  // ----- one forward step -----

  /** Two states of one step: everything but the status and the outcome fields agree. */
  predicate SameDefinition(s: SagaStep, s': SagaStep) {
    && s.stepId == s'.stepId && s.name == s'.name && s.url == s'.url && s.httpMethod == s'.httpMethod
    && s.payload == s'.payload && s.rollbackUrl == s'.rollbackUrl && s.rollbackMethod == s'.rollbackMethod
  }

  /** A step is compensated only with a rollback URL and a non-empty result. */
  predicate RollbackEligible(s: SagaStep) {
    s.rollbackUrl.Some? && |s.rollbackUrl.value| != 0 && HasResult(s)
  }

  /** The compensating request of an eligible step: no body. */
  function RollbackRequest(s: SagaStep): Request
    requires RollbackEligible(s)
  {
    Request(s.rollbackMethod, FillPlaceholders(s.rollbackUrl.value, s.result.value), None)
  }

  /** How a step's call ended: success, a failure the saga compensates, or an exception. */
  datatype StepOutcome = Done | Stopped | Raised(reason: string)

  /** The step after its call: completed with the response body, or failed with the cause. */
  function Settle(s: SagaStep, reply: Reply, now: string): SagaStep
    requires !reply.Unexpected?
  {
    if ForwardSucceeded(reply) then
      s.(status := StepStatus.Completed, result := Some(reply.response.body), completedAt := Some(now))
    else if reply.Answered? then
      s.(status := StepStatus.Failed, error := Some(HttpStatus(reply.response.status)), completedAt := Some(now))
    else
      s.(status := StepStatus.Failed, error := Some(RequestFailed(reply.reason)), completedAt := Some(now))
  }

  /** Step `i` after its call, the tables afterwards, what was sent and received, and how it ended. */
  datatype Attempt = Attempt(step: SagaStep, world: Tables, exchange: Exchange, outcome: StepOutcome)

  /**
   * The body step `i` is sent: its payload template filled from the
   * completed steps, with step `i` itself marked in progress.
   */
  function SentBody(steps: seq<SagaStep>, i: nat): Dict
    requires i < |steps|
  {
    PayloadFrom(steps[i].payload, steps[i := steps[i].(status := StepStatus.InProgress)], |steps|)
  }

  /**
   * `_execute_step` on step `i`: mark it in progress, send its method to its
   * URL with the payload prepared from the completed steps, and record the
   * outcome. On an exception the step stays in progress.
   */
  function AttemptStep(steps: seq<SagaStep>, i: nat, call: Call, w: Tables, now: string): (a: Attempt)
    requires i < |steps|
    ensures a.exchange.request.verb == steps[i].httpMethod && a.exchange.request.url == steps[i].url
    ensures a.exchange.request.json == Some(SentBody(steps, i))
    ensures a.outcome == Done <==> ForwardSucceeded(a.exchange.reply)
    ensures a.outcome.Raised? <==> a.exchange.reply.Unexpected?
    ensures a.outcome.Raised? ==> a.outcome.reason == a.exchange.reply.reason
    ensures a.step.status ==
              match a.outcome
              case Done => StepStatus.Completed
              case Stopped => StepStatus.Failed
              case Raised(_) => StepStatus.InProgress
    ensures a.outcome == Done ==> a.step.result == Some(a.exchange.reply.response.body)
    ensures a.outcome == Stopped ==> a.step.result == steps[i].result && a.step.error.Some?
    ensures SameDefinition(a.step, steps[i])
  {
    var marked := steps[i].(status := StepStatus.InProgress);
    var req := Request(marked.httpMethod, marked.url, Some(SentBody(steps, i)));
    var out := call(w, req);
    if out.0.Unexpected? then
      Attempt(marked, out.1, Exchange(req, out.0), Raised(out.0.reason))
    else
      Attempt(Settle(marked, out.0, now), out.1, Exchange(req, out.0),
              if ForwardSucceeded(out.0) then Done else Stopped)
  }

  /** The parts of a sequence built by prepending one element. */
  lemma Uncons<T>(s: seq<T>, x: T, t: seq<T>)
    requires s == [x] + t
    ensures |s| == |t| + 1 && s[0] == x && s[1..] == t
    ensures forall m :: 0 < m < |s| ==> s[m] == t[m - 1]
  {
  }

  // ----- the forward phase -----

  /** Where the forward phase ended. */
  datatype Stop = AllDone | StoppedAt(index: nat) | RaisedAt(index: nat, reason: string)

  datatype ForwardRun = ForwardRun(steps: seq<SagaStep>, world: Tables, log: seq<Exchange>, stop: Stop)

  /** The index of the last step the forward phase called, or the step count when all succeeded. */
  function StopIndex(f: ForwardRun, n: nat): nat {
    if f.stop.AllDone? then n else f.stop.index
  }

  /**
   * The forward phase from step `i`: the steps are called in order until one
   * does not succeed. It sends one request per step it reaches and leaves
   * the steps before `i` alone.
   */
  function Forward(steps: seq<SagaStep>, i: nat, call: Call, w: Tables, now: string): (f: ForwardRun)
    requires i <= |steps|
    ensures |f.steps| == |steps|
    ensures !f.stop.AllDone? ==> i <= f.stop.index < |steps|
    ensures |f.log| == if f.stop.AllDone? then |steps| - i else f.stop.index - i + 1
    ensures forall j :: 0 <= j < i ==> f.steps[j] == steps[j]
    decreases |steps| - i
  {
    if i == |steps| then ForwardRun(steps, w, [], AllDone)
    else
      var a := AttemptStep(steps, i, call, w, now);
      var steps' := steps[i := a.step];
      match a.outcome
      case Done =>
        var rest := Forward(steps', i + 1, call, a.world, now);
        ForwardRun(rest.steps, rest.world, [a.exchange] + rest.log, rest.stop)
      case Stopped => ForwardRun(steps', a.world, [a.exchange], StoppedAt(i))
      case Raised(reason) => ForwardRun(steps', a.world, [a.exchange], RaisedAt(i, reason))
  }

  /** A step that succeeds is followed by the rest of the forward phase. */
  lemma ForwardDone(steps: seq<SagaStep>, i: nat, call: Call, w: Tables, now: string, f: ForwardRun)
    returns (a: Attempt, rest: ForwardRun)
    requires i < |steps| && f == Forward(steps, i, call, w, now)
    requires AttemptStep(steps, i, call, w, now).outcome == Done
    ensures a == AttemptStep(steps, i, call, w, now)
    ensures rest == Forward(steps[i := a.step], i + 1, call, a.world, now)
    ensures f.steps == rest.steps && f.world == rest.world && f.stop == rest.stop
    ensures f.log == [a.exchange] + rest.log
  {
    a := AttemptStep(steps, i, call, w, now);
    rest := Forward(steps[i := a.step], i + 1, call, a.world, now);
  }

  /** A step that does not succeed ends the forward phase. */
  lemma ForwardEnds(steps: seq<SagaStep>, i: nat, call: Call, w: Tables, now: string, f: ForwardRun)
    returns (a: Attempt)
    requires i < |steps| && f == Forward(steps, i, call, w, now)
    requires AttemptStep(steps, i, call, w, now).outcome != Done
    ensures a == AttemptStep(steps, i, call, w, now)
    ensures f.steps == steps[i := a.step] && f.world == a.world && f.log == [a.exchange]
    ensures f.stop == if a.outcome == Stopped then StoppedAt(i) else RaisedAt(i, a.outcome.reason)
  {
    a := AttemptStep(steps, i, call, w, now);
  }

  /** One step of the forward phase: either the phase goes on from the next step, or it ends here. */
  lemma ForwardAdvance(steps: seq<SagaStep>, i: nat, call: Call, w: Tables, now: string) returns (a: Attempt)
    requires i < |steps|
    ensures a == AttemptStep(steps, i, call, w, now)
    ensures a.outcome == Done ==>
              Forward(steps[i := a.step], i + 1, call, a.world, now).(log := []) == Forward(steps, i, call, w, now).(log := [])
    ensures a.outcome != Done ==>
              var f := Forward(steps, i, call, w, now);
              && f.steps == steps[i := a.step] && f.world == a.world
              && f.stop == if a.outcome == Stopped then StoppedAt(i) else RaisedAt(i, a.outcome.reason)
  {
    a := AttemptStep(steps, i, call, w, now);
  }

  /**
   * The first step the forward phase reaches is called with its own URL and
   * method; it is completed with the reply's body when the phase goes on
   * past it, and its definition is kept.
   */
  lemma ForwardFirst(steps: seq<SagaStep>, i: nat, call: Call, w: Tables, now: string, f: ForwardRun)
    requires i < |steps| && f == Forward(steps, i, call, w, now)
    ensures 0 < |f.log| && i <= StopIndex(f, |steps|)
    ensures f.log[0].request.url == steps[i].url && f.log[0].request.verb == steps[i].httpMethod
    ensures i < StopIndex(f, |steps|) ==>
              && ForwardSucceeded(f.log[0].reply)
              && f.steps[i].status == StepStatus.Completed
              && f.steps[i].result == Some(f.log[0].reply.response.body)
    ensures SameDefinition(f.steps[i], steps[i])
  {
    if AttemptStep(steps, i, call, w, now).outcome == Done {
      var a, rest := ForwardDone(steps, i, call, w, now, f);
      assert f.steps[i] == a.step;
    } else {
      var a := ForwardEnds(steps, i, call, w, now, f);
    }
  }

  /**
   * Every step from `i` up to the stop was called, in order, with its own
   * URL and method; a step before the stop got a success and is completed
   * with the reply's body as its result.
   */
  lemma {:induction false} ForwardCalled(steps: seq<SagaStep>, i: nat, call: Call, w: Tables, now: string, f: ForwardRun, j: nat)
    requires i <= j < |steps| && f == Forward(steps, i, call, w, now)
    requires j <= StopIndex(f, |steps|)
    ensures j - i < |f.log|
    ensures f.log[j - i].request.url == steps[j].url && f.log[j - i].request.verb == steps[j].httpMethod
    ensures j < StopIndex(f, |steps|) ==>
              && ForwardSucceeded(f.log[j - i].reply)
              && f.steps[j].status == StepStatus.Completed
              && f.steps[j].result == Some(f.log[j - i].reply.response.body)
    decreases |steps| - i
  {
    if j == i {
      ForwardFirst(steps, i, call, w, now, f);
    } else if AttemptStep(steps, i, call, w, now).outcome == Done {
      var a, rest := ForwardDone(steps, i, call, w, now, f);
      Uncons(f.log, a.exchange, rest.log);
      ForwardCalled(steps[i := a.step], i + 1, call, a.world, now, rest, j);
    } else {
      var a := ForwardEnds(steps, i, call, w, now, f);
    }
  }

  /**
   * The step list as step `j` sees it when it is called: the steps before
   * it as the forward phase left them, step `j` in progress, and the steps
   * after it as they were.
   */
  function ListAtCall(steps: seq<SagaStep>, f: ForwardRun, j: nat): seq<SagaStep>
    requires j < |steps| && |f.steps| == |steps|
  {
    f.steps[..j] + [steps[j].(status := StepStatus.InProgress)] + steps[j + 1..]
  }

  /** Before any later step runs, the list step `i` is sent with is the one `SentBody` fills from. */
  lemma ListAtCallFirst(steps: seq<SagaStep>, f: ForwardRun, i: nat)
    requires i < |steps| && |f.steps| == |steps|
    requires forall k :: 0 <= k < i ==> f.steps[k] == steps[k]
    ensures PayloadFrom(steps[i].payload, ListAtCall(steps, f, i), |steps|) == SentBody(steps, i)
  {
    assert ListAtCall(steps, f, i) == steps[i := steps[i].(status := StepStatus.InProgress)];
  }

  /** Settling step `i` does not change the list a later step `j` is sent with. */
  lemma ListAtCallLater(steps: seq<SagaStep>, settled: SagaStep, f: ForwardRun, i: nat, j: nat)
    requires i < j < |steps| && |f.steps| == |steps|
    ensures ListAtCall(steps[i := settled], f, j) == ListAtCall(steps, f, j)
  {
    assert steps[i := settled][j + 1..] == steps[j + 1..];
  }

  /**
   * The body sent for each step from `i` up to the stop is its template
   * updated from the completed steps of the list as it stood at that call
   * (`PayloadFromAll` reads this as `get_completed_steps()` of that list).
   */
  lemma {:induction false} ForwardSent(steps: seq<SagaStep>, i: nat, call: Call, w: Tables, now: string, f: ForwardRun, j: nat)
    requires i <= j < |steps| && f == Forward(steps, i, call, w, now)
    requires j <= StopIndex(f, |steps|)
    ensures j - i < |f.log|
    ensures f.log[j - i].request.json == Some(PayloadFrom(steps[j].payload, ListAtCall(steps, f, j), |steps|))
    decreases |steps| - i
  {
    var a := AttemptStep(steps, i, call, w, now);
    if a.outcome == Done {
      var a', rest := ForwardDone(steps, i, call, w, now, f);
      Uncons(f.log, a.exchange, rest.log);
      if j == i {
        ListAtCallFirst(steps, f, i);
      } else {
        ForwardSent(steps[i := a.step], i + 1, call, a.world, now, rest, j);
        ListAtCallLater(steps, a.step, f, i, j);
      }
    } else {
      var a' := ForwardEnds(steps, i, call, w, now, f);
      ListAtCallFirst(steps, f, i);
    }
  }

  /**
   * The forward phase keeps every step's definition (name, URLs, methods,
   * payload template) and does not touch the steps after the stop, which it
   * never calls.
   */
  lemma {:induction false} ForwardKept(steps: seq<SagaStep>, i: nat, call: Call, w: Tables, now: string, f: ForwardRun, j: nat)
    requires i <= j < |steps| && f == Forward(steps, i, call, w, now)
    ensures StopIndex(f, |steps|) < j ==> f.steps[j] == steps[j]
    ensures SameDefinition(f.steps[j], steps[j])
    decreases |steps| - i
  {
    if j == i {
      ForwardFirst(steps, i, call, w, now, f);
    } else if AttemptStep(steps, i, call, w, now).outcome == Done {
      var a, rest := ForwardDone(steps, i, call, w, now, f);
      ForwardKept(steps[i := a.step], i + 1, call, a.world, now, rest, j);
    } else {
      var a := ForwardEnds(steps, i, call, w, now, f);
    }
  }

  /** A step that failed without an exception is failed with an error and its result untouched. */
  lemma {:induction false} ForwardFailed(steps: seq<SagaStep>, i: nat, call: Call, w: Tables, now: string, f: ForwardRun)
    requires i <= |steps| && f == Forward(steps, i, call, w, now)
    ensures f.stop.StoppedAt? ==>
      var j := f.stop.index;
      && !ForwardSucceeded(f.log[j - i].reply) && !f.log[j - i].reply.Unexpected?
      && f.steps[j].status == StepStatus.Failed && f.steps[j].error.Some? && f.steps[j].result == steps[j].result
    decreases |steps| - i
  {
    if i < |steps| {
      if AttemptStep(steps, i, call, w, now).outcome == Done {
        var a, rest := ForwardDone(steps, i, call, w, now, f);
        Uncons(f.log, a.exchange, rest.log);
        ForwardFailed(steps[i := a.step], i + 1, call, a.world, now, rest);
      } else {
        var a := ForwardEnds(steps, i, call, w, now, f);
      }
    }
  }

  /** A step whose call raised is left in progress, and its exchange records the exception. */
  lemma {:induction false} ForwardRaised(steps: seq<SagaStep>, i: nat, call: Call, w: Tables, now: string, f: ForwardRun)
    requires i <= |steps| && f == Forward(steps, i, call, w, now)
    ensures f.stop.RaisedAt? ==>
      var j := f.stop.index;
      && f.log[j - i].reply == Unexpected(f.stop.reason)
      && f.steps[j].status == StepStatus.InProgress
    decreases |steps| - i
  {
    if i < |steps| {
      if AttemptStep(steps, i, call, w, now).outcome == Done {
        var a, rest := ForwardDone(steps, i, call, w, now, f);
        Uncons(f.log, a.exchange, rest.log);
        ForwardRaised(steps[i := a.step], i + 1, call, a.world, now, rest);
      } else {
        var a := ForwardEnds(steps, i, call, w, now, f);
      }
    }
  }

  /**
   * The step that stopped the run got a reply that is not a success: it is
   * failed with an error and its result untouched, or, after an exception,
   * left in progress.
   */
  lemma ForwardStopped(steps: seq<SagaStep>, i: nat, call: Call, w: Tables, now: string, f: ForwardRun)
    requires i <= |steps| && f == Forward(steps, i, call, w, now)
    ensures f.stop.StoppedAt? ==>
      var j := f.stop.index;
      && !ForwardSucceeded(f.log[j - i].reply) && !f.log[j - i].reply.Unexpected?
      && f.steps[j].status == StepStatus.Failed && f.steps[j].error.Some? && f.steps[j].result == steps[j].result
    ensures f.stop.RaisedAt? ==>
      var j := f.stop.index;
      && f.log[j - i].reply == Unexpected(f.stop.reason)
      && f.steps[j].status == StepStatus.InProgress
  {
    ForwardFailed(steps, i, call, w, now, f);
    ForwardRaised(steps, i, call, w, now, f);
  }

  // ----- compensation -----

  datatype RollbackResult = RollbackResult(steps: seq<SagaStep>, world: Tables, exchange: Exchange, raised: Option<string>)

  /** `after` is `before` with some steps marked compensated and nothing else changed. */
  predicate OnlyCompensated(before: seq<SagaStep>, after: seq<SagaStep>) {
    |after| == |before|
    && forall j :: 0 <= j < |before| ==>
         after[j] == before[j] || after[j] == before[j].(status := StepStatus.Compensated)
  }

  /**
   * `_execute_rollback_step` on step `i`: send the compensating request; the
   * step becomes compensated on 200 or 204 and is otherwise left as it is.
   * A transport failure is swallowed; any other exception is raised.
   */
  function RollbackAttempt(steps: seq<SagaStep>, i: nat, call: Call, w: Tables): (r: RollbackResult)
    requires i < |steps| && RollbackEligible(steps[i])
    ensures r.exchange.request == RollbackRequest(steps[i])
    ensures r.raised.Some? <==> r.exchange.reply.Unexpected?
    ensures r.raised.Some? ==> r.exchange.reply == Unexpected(r.raised.value)
    ensures r.steps == if RollbackSucceeded(r.exchange.reply) then steps[i := steps[i].(status := StepStatus.Compensated)] else steps
  {
    var req := RollbackRequest(steps[i]);
    var out := call(w, req);
    var raised := if out.0.Unexpected? then Some(out.0.reason) else None;
    var steps' := if RollbackSucceeded(out.0) then steps[i := steps[i].(status := StepStatus.Compensated)] else steps;
    RollbackResult(steps', out.1, Exchange(req, out.0), raised)
  }

  datatype CompensationRun = CompensationRun(steps: seq<SagaStep>, world: Tables, log: seq<Exchange>, raised: Option<string>)

  /** The indices are positions of a list of `n` steps, strictly increasing. */
  predicate ValidPlan(plan: seq<nat>, n: nat) {
    (forall j :: 0 <= j < |plan| ==> plan[j] < n)
    && (forall j, k :: 0 <= j < k < |plan| ==> plan[j] < plan[k])
  }

  /**
   * The compensation sweep over `plan[..k]` from the last entry down: each
   * eligible step is rolled back; an exception ends the sweep. It only ever
   * marks steps of the plan compensated.
   */
  function Compensate(steps: seq<SagaStep>, plan: seq<nat>, k: nat, call: Call, w: Tables): (c: CompensationRun)
    requires k <= |plan| && ValidPlan(plan, |steps|)
    ensures |c.steps| == |steps|
    decreases k
  {
    if k == 0 then CompensationRun(steps, w, [], None)
    else
      var i := plan[k - 1];
      if !RollbackEligible(steps[i]) then Compensate(steps, plan, k - 1, call, w)
      else
        var r := RollbackAttempt(steps, i, call, w);
        if r.raised.Some? then CompensationRun(r.steps, r.world, [r.exchange], r.raised)
        else
          var rest := Compensate(r.steps, plan, k - 1, call, r.world);
          CompensationRun(rest.steps, rest.world, [r.exchange] + rest.log, rest.raised)
  }

  /** The steps of `plan[..k]` the sweep calls, from the last entry down. */
  function RollbackOrder(steps: seq<SagaStep>, plan: seq<nat>, k: nat): (order: seq<nat>)
    requires k <= |plan| && ValidPlan(plan, |steps|)
    ensures forall m :: 0 <= m < |order| ==> order[m] < |steps| && RollbackEligible(steps[order[m]])
    ensures forall m :: 0 <= m < |order| ==> 0 < k && order[m] <= plan[k - 1]
    decreases k
  {
    if k == 0 then []
    else if RollbackEligible(steps[plan[k - 1]]) then [plan[k - 1]] + RollbackOrder(steps, plan, k - 1)
    else RollbackOrder(steps, plan, k - 1)
  }

  /** `RollbackOrder` lists exactly the eligible entries of `plan[..k]`, in decreasing position. */
  lemma {:induction false} RollbackOrderMembers(steps: seq<SagaStep>, plan: seq<nat>, k: nat)
    requires k <= |plan| && ValidPlan(plan, |steps|)
    ensures var order := RollbackOrder(steps, plan, k);
      && (forall m, m' :: 0 <= m < m' < |order| ==> order[m] > order[m'])
      && (forall i :: i in order <==> i in plan[..k] && RollbackEligible(steps[i]))
    decreases k
  {
    if k > 0 {
      RollbackOrderMembers(steps, plan, k - 1);
      assert plan[..k] == plan[..k - 1] + [plan[k - 1]];
      var rest := RollbackOrder(steps, plan, k - 1);
      forall i | i in rest
        ensures i < plan[k - 1]
      {
        var j :| 0 <= j < k - 1 && plan[..k - 1][j] == i;
        assert plan[j] == i;
      }
    }
  }

  /** Marking steps compensated changes neither which steps are eligible nor their requests. */
  lemma {:induction false} OrderUnchanged(steps: seq<SagaStep>, steps': seq<SagaStep>, plan: seq<nat>, k: nat)
    requires k <= |plan| && ValidPlan(plan, |steps|) && OnlyCompensated(steps, steps')
    ensures RollbackOrder(steps', plan, k) == RollbackOrder(steps, plan, k)
    decreases k
  {
    if k > 0 {
      OrderUnchanged(steps, steps', plan, k - 1);
    }
  }

  /** An entry that is not eligible is skipped. */
  lemma CompensateSkip(steps: seq<SagaStep>, plan: seq<nat>, k: nat, call: Call, w: Tables)
    requires 0 < k <= |plan| && ValidPlan(plan, |steps|) && !RollbackEligible(steps[plan[k - 1]])
    ensures Compensate(steps, plan, k, call, w) == Compensate(steps, plan, k - 1, call, w)
  {
  }

  /** A compensating call that raises ends the sweep with that call's state. */
  lemma CompensateRaises(steps: seq<SagaStep>, plan: seq<nat>, k: nat, call: Call, w: Tables)
    requires 0 < k <= |plan| && ValidPlan(plan, |steps|) && RollbackEligible(steps[plan[k - 1]])
    requires RollbackAttempt(steps, plan[k - 1], call, w).raised.Some?
    ensures var r, c := RollbackAttempt(steps, plan[k - 1], call, w), Compensate(steps, plan, k, call, w);
      c.raised == r.raised && c.steps == r.steps && c.world == r.world
  {
  }

  /** A compensating call that does not raise is followed by the sweep over the entries below. */
  lemma CompensateGoesOn(steps: seq<SagaStep>, plan: seq<nat>, k: nat, call: Call, w: Tables)
    requires 0 < k <= |plan| && ValidPlan(plan, |steps|) && RollbackEligible(steps[plan[k - 1]])
    requires RollbackAttempt(steps, plan[k - 1], call, w).raised.None?
    ensures var r := RollbackAttempt(steps, plan[k - 1], call, w);
      && |r.steps| == |steps|
      && Compensate(steps, plan, k, call, w).(log := []) == Compensate(r.steps, plan, k - 1, call, r.world).(log := [])
  {
  }

  /**
   * The sweep over an eligible last entry that does not raise: the entry's
   * compensating call, then the sweep over the rest of the plan, whose
   * order is the rest of the order.
   */
  lemma CompensateStep(steps: seq<SagaStep>, plan: seq<nat>, k: nat, call: Call, w: Tables,
                       c: CompensationRun, order: seq<nat>)
    requires 0 < k <= |plan| && ValidPlan(plan, |steps|)
    requires c == Compensate(steps, plan, k, call, w) && order == RollbackOrder(steps, plan, k)
    requires RollbackEligible(steps[plan[k - 1]]) && RollbackAttempt(steps, plan[k - 1], call, w).raised.None?
    ensures var r := RollbackAttempt(steps, plan[k - 1], call, w);
      var rest := Compensate(r.steps, plan, k - 1, call, r.world);
      && c.steps == rest.steps && c.raised == rest.raised
      && c.log == [r.exchange] + rest.log
      && order == [plan[k - 1]] + RollbackOrder(r.steps, plan, k - 1)
  {
    var r := RollbackAttempt(steps, plan[k - 1], call, w);
    OrderUnchanged(steps, r.steps, plan, k - 1);
  }

  /**
   * The sweep sends at most one compensating request per eligible step of
   * `plan[..k]`, and one for each of them unless an exception stops it; the
   * reply of the exception is then the last one logged.
   */
  lemma {:induction false} CompensateLength(steps: seq<SagaStep>, plan: seq<nat>, k: nat, call: Call, w: Tables,
                                            c: CompensationRun, order: seq<nat>)
    requires k <= |plan| && ValidPlan(plan, |steps|)
    requires c == Compensate(steps, plan, k, call, w) && order == RollbackOrder(steps, plan, k)
    ensures |c.log| <= |order|
    ensures c.raised.None? ==> |c.log| == |order|
    ensures c.raised.Some? ==> |c.log| > 0 && c.log[|c.log| - 1].reply == Unexpected(c.raised.value)
    decreases k
  {
    if k > 0 {
      var i := plan[k - 1];
      if !RollbackEligible(steps[i]) {
        CompensateLength(steps, plan, k - 1, call, w, c, order);
      } else {
        var r := RollbackAttempt(steps, i, call, w);
        if r.raised.None? {
          CompensateStep(steps, plan, k, call, w, c, order);
          var rest := Compensate(r.steps, plan, k - 1, call, r.world);
          var restOrder := RollbackOrder(r.steps, plan, k - 1);
          Uncons(order, i, restOrder);
          Uncons(c.log, r.exchange, rest.log);
          CompensateLength(r.steps, plan, k - 1, call, r.world, rest, restOrder);
        }
      }
    }
  }

  /** The first request of the sweep over an eligible last entry is that entry's compensating call. */
  lemma CompensateFirst(steps: seq<SagaStep>, plan: seq<nat>, k: nat, call: Call, w: Tables,
                        c: CompensationRun, order: seq<nat>)
    requires 0 < k <= |plan| && ValidPlan(plan, |steps|)
    requires c == Compensate(steps, plan, k, call, w) && order == RollbackOrder(steps, plan, k)
    requires RollbackEligible(steps[plan[k - 1]])
    ensures 0 < |c.log| && 0 < |order|
    ensures c.log[0].request == RollbackRequest(steps[order[0]])
    ensures c.steps[order[0]] ==
              if RollbackSucceeded(c.log[0].reply) then steps[order[0]].(status := StepStatus.Compensated)
              else steps[order[0]]
  {
    var i := plan[k - 1];
    var r := RollbackAttempt(steps, i, call, w);
    if r.raised.None? {
      if k > 1 {
        assert plan[k - 2] < i;
        CompensateAbove(r.steps, plan, k - 1, call, r.world, i);
      }
    }
  }

  /** The sweep over `plan[..k]` leaves every step above `plan[k - 1]` as it was. */
  lemma {:induction false} CompensateAbove(steps: seq<SagaStep>, plan: seq<nat>, k: nat, call: Call, w: Tables, j: nat)
    requires 0 < k <= |plan| && ValidPlan(plan, |steps|) && plan[k - 1] < j < |steps|
    ensures Compensate(steps, plan, k, call, w).steps[j] == steps[j]
    decreases k
  {
    var i := plan[k - 1];
    if k > 1 {
      assert plan[k - 2] < i;
    }
    if !RollbackEligible(steps[i]) {
      if k > 1 {
        CompensateAbove(steps, plan, k - 1, call, w, j);
      }
    } else {
      var r := RollbackAttempt(steps, i, call, w);
      if r.raised.None? && k > 1 {
        CompensateAbove(r.steps, plan, k - 1, call, r.world, j);
      }
    }
  }

  /**
   * The `m`-th request of the sweep is the compensating request of step
   * `order[m]`, and that step ends compensated exactly when the reply was
   * 200 or 204.
   */
  lemma {:induction false} CompensateAt(steps: seq<SagaStep>, plan: seq<nat>, k: nat, call: Call, w: Tables,
                                        c: CompensationRun, order: seq<nat>, m: nat)
    requires k <= |plan| && ValidPlan(plan, |steps|)
    requires c == Compensate(steps, plan, k, call, w) && order == RollbackOrder(steps, plan, k)
    requires m < |c.log| && m < |order|
    ensures c.log[m].request == RollbackRequest(steps[order[m]])
    ensures c.steps[order[m]] ==
              if RollbackSucceeded(c.log[m].reply) then steps[order[m]].(status := StepStatus.Compensated)
              else steps[order[m]]
    decreases k
  {
    var i := plan[k - 1];
    if !RollbackEligible(steps[i]) {
      CompensateAt(steps, plan, k - 1, call, w, c, order, m);
    } else if m == 0 {
      CompensateFirst(steps, plan, k, call, w, c, order);
    } else {
      var r := RollbackAttempt(steps, i, call, w);
      CompensateStep(steps, plan, k, call, w, c, order);
      var rest := Compensate(r.steps, plan, k - 1, call, r.world);
      var restOrder := RollbackOrder(r.steps, plan, k - 1);
      Uncons(order, i, restOrder);
      Uncons(c.log, r.exchange, rest.log);
      CompensateAt(r.steps, plan, k - 1, call, r.world, rest, restOrder, m - 1);
      assert restOrder[m - 1] <= plan[k - 2] < i;
      assert r.steps[restOrder[m - 1]] == steps[restOrder[m - 1]];
    }
  }

  /** A step the sweep does not call is left as it was. */
  lemma {:induction false} CompensateUntouched(steps: seq<SagaStep>, plan: seq<nat>, k: nat, call: Call, w: Tables,
                                               c: CompensationRun, order: seq<nat>, j: nat)
    requires k <= |plan| && ValidPlan(plan, |steps|)
    requires c == Compensate(steps, plan, k, call, w) && order == RollbackOrder(steps, plan, k)
    requires j < |steps| && forall m :: 0 <= m < |c.log| && m < |order| ==> order[m] != j
    ensures c.steps[j] == steps[j]
    decreases k
  {
    if k > 0 {
      var i := plan[k - 1];
      if !RollbackEligible(steps[i]) {
        CompensateUntouched(steps, plan, k - 1, call, w, c, order, j);
      } else {
        var r := RollbackAttempt(steps, i, call, w);
        CompensateFirst(steps, plan, k, call, w, c, order);
        assert i != j;
        if r.raised.None? {
          CompensateStep(steps, plan, k, call, w, c, order);
          var rest := Compensate(r.steps, plan, k - 1, call, r.world);
          var restOrder := RollbackOrder(r.steps, plan, k - 1);
          Uncons(order, i, restOrder);
          Uncons(c.log, r.exchange, rest.log);
          forall m | 0 <= m < |rest.log| && m < |restOrder|
            ensures restOrder[m] != j
          {
            assert order[m + 1] != j;
          }
          CompensateUntouched(r.steps, plan, k - 1, call, r.world, rest, restOrder, j);
        }
      }
    }
  }

  // ----- the whole run -----

  /** The summary `execute_saga` returns. */
  datatype Summary =
    | Succeeded(transactionId: string, completedSteps: nat)
    | RolledBack(transactionId: string, failedStep: string)
    | Faulted(transactionId: string, error: string)
  {
    function Success(): bool {
      this.Succeeded?
    }

    function Status(): TransactionStatus {
      match this
      case Succeeded(_, _) => TransactionStatus.Completed
      case RolledBack(_, _) => TransactionStatus.Compensated
      case Faulted(_, _) => TransactionStatus.Failed
    }

    function Message(): string {
      match this
      case Succeeded(_, _) => "All steps completed successfully"
      case RolledBack(_, step) => "Saga failed at step: " + step
      case Faulted(_, error) => "Saga execution failed: " + error
    }

    /** The returned dict. */
    function AsDict(): (d: Dict)
      ensures Get(d, "success") == Some(Bool(this.Succeeded?))
      ensures Get(d, "transaction_id") == Some(Str(transactionId))
      ensures Get(d, "status") == Some(Str(Status().Value()))
      ensures this.Succeeded? ==> Get(d, "completed_steps") == Some(Int(completedSteps))
      ensures this.RolledBack? ==>
                Get(d, "failed_step") == Some(Str(failedStep)) && Get(d, "rollback_completed") == Some(Bool(true))
      ensures this.Faulted? ==> |d| == 4
    {
      var common := [("success", Bool(Success())),
                     ("transaction_id", Str(transactionId)),
                     ("status", Str(Status().Value())),
                     ("message", Str(Message()))];
      var d := match this
        case Succeeded(_, n) => common + [("completed_steps", Int(n))]
        case RolledBack(_, step) => common + [("failed_step", Str(step)), ("rollback_completed", Bool(true))]
        case Faulted(_, _) => common;
      GetFirst(d, "success", 0);
      GetFirst(d, "transaction_id", 1);
      GetFirst(d, "status", 2);
      if this.Succeeded? then GetFirst(d, "completed_steps", 4); d
      else if this.RolledBack? then GetFirst(d, "failed_step", 4); GetFirst(d, "rollback_completed", 5); d
      else d
    }
  }

  /** The compensation after the forward phase: over all steps it left completed. */
  function Sweep(f: ForwardRun, call: Call): CompensationRun {
    var plan := CompletedIndices(f.steps);
    Compensate(f.steps, plan, |plan|, call, f.world)
  }

  /** The steps that compensation calls, in the order it calls them. */
  function SweepOrder(f: ForwardRun): seq<nat> {
    var plan := CompletedIndices(f.steps);
    RollbackOrder(f.steps, plan, |plan|)
  }

  datatype SagaRun = SagaRun(
    steps: seq<SagaStep>,
    status: TransactionStatus,
    index: int,
    world: Tables,
    log: seq<Exchange>,
    summary: Summary)

  /**
   * `execute_saga` as a function of the transaction's steps and index, the
   * tables and the participants: the forward phase, then its conclusion.
   */
  function RunSaga(txId: string, steps: seq<SagaStep>, index: int, call: Call, w: Tables, now: string): (r: SagaRun)
    ensures |r.steps| == |steps|
    ensures r.status == r.summary.Status()
  {
    Conclude(txId, Forward(steps, 0, call, w, now), index, call)
  }

  /**
   * How a run ends after its forward phase `f`: completed; failed by an
   * exception; or, on a failed step, the compensation of the completed
   * steps, which fails the run if it raises. `index` is the transaction's
   * index before the run, kept when there are no steps.
   */
  function Conclude(txId: string, f: ForwardRun, index: int, call: Call): (r: SagaRun)
    requires !f.stop.AllDone? ==> f.stop.index < |f.steps|
    ensures |r.steps| == |f.steps|
    ensures r.status == r.summary.Status()
    ensures r.index == if !f.stop.AllDone? then f.stop.index else if |f.steps| == 0 then index else |f.steps| - 1
    ensures !f.stop.StoppedAt? ==> r.steps == f.steps && r.world == f.world && r.log == f.log
    ensures f.stop.StoppedAt? ==>
              var c := Sweep(f, call);
              r.steps == c.steps && r.world == c.world && r.log == f.log + c.log
  {
    match f.stop
    case AllDone =>
      SagaRun(f.steps, TransactionStatus.Completed, if |f.steps| == 0 then index else |f.steps| - 1,
              f.world, f.log, Succeeded(txId, |f.steps|))
    case RaisedAt(i, reason) =>
      SagaRun(f.steps, TransactionStatus.Failed, i, f.world, f.log, Faulted(txId, reason))
    case StoppedAt(i) =>
      var c := Sweep(f, call);
      if c.raised.Some? then
        SagaRun(c.steps, TransactionStatus.Failed, i, c.world, f.log + c.log, Faulted(txId, c.raised.value))
      else
        SagaRun(c.steps, TransactionStatus.Compensated, i, c.world, f.log + c.log, RolledBack(txId, f.steps[i].name))
  }

  // ----- properties of the whole run -----

  /** Steps as a new transaction holds them: pending, with no result and no error. */
  predicate Unstarted(steps: seq<SagaStep>) {
    forall j :: 0 <= j < |steps| ==>
      steps[j].status == StepStatus.Pending && steps[j].result.None? && steps[j].error.None?
  }

  /**
   * A run succeeds exactly when every step was called and every reply was
   * 200 or 201; it then reports all steps completed and leaves the index at
   * the last step.
   */
  lemma RunSucceeds(txId: string, steps: seq<SagaStep>, index: int, call: Call, w: Tables, now: string,
                    r: SagaRun, f: ForwardRun)
    requires r == RunSaga(txId, steps, index, call, w, now) && f == Forward(steps, 0, call, w, now)
    ensures r.summary.Succeeded? <==>
              |f.log| == |steps| && forall m :: 0 <= m < |f.log| ==> ForwardSucceeded(f.log[m].reply)
    ensures r.summary.Succeeded? ==>
              && r.summary == Succeeded(txId, |steps|) && r.status == TransactionStatus.Completed
              && r.index == (if |steps| == 0 then index else |steps| - 1)
              && r.log == f.log && r.steps == f.steps && r.world == f.world
  {
    if f.stop.AllDone? {
      forall m | 0 <= m < |f.log|
        ensures ForwardSucceeded(f.log[m].reply)
      {
        ForwardCalled(steps, 0, call, w, now, f, m);
      }
    } else {
      ForwardStopped(steps, 0, call, w, now, f);
    }
  }

  /**
   * After a successful run every step is completed, was called with its own
   * URL and method, and holds the body of its reply as its result.
   */
  lemma RunCompletedSteps(txId: string, steps: seq<SagaStep>, index: int, call: Call, w: Tables, now: string,
                          r: SagaRun)
    requires r == RunSaga(txId, steps, index, call, w, now) && r.summary.Succeeded?
    ensures AllCompleted(r.steps) && |r.log| == |steps|
    ensures forall j :: 0 <= j < |steps| ==>
              && r.steps[j].status == StepStatus.Completed && ForwardSucceeded(r.log[j].reply)
              && r.log[j].request.url == steps[j].url && r.log[j].request.verb == steps[j].httpMethod
              && r.steps[j].result == Some(r.log[j].reply.response.body)
              && SameDefinition(r.steps[j], steps[j])
  {
    var f := Forward(steps, 0, call, w, now);
    forall j | 0 <= j < |steps|
      ensures && r.steps[j].status == StepStatus.Completed && ForwardSucceeded(r.log[j].reply)
              && r.log[j].request.url == steps[j].url && r.log[j].request.verb == steps[j].httpMethod
              && r.steps[j].result == Some(r.log[j].reply.response.body)
              && SameDefinition(r.steps[j], steps[j])
    {
      ForwardCalled(steps, 0, call, w, now, f, j);
      ForwardKept(steps, 0, call, w, now, f, j);
    }
  }

  /** With the steps before `j` completed and those after it unstarted, only the first `j` count as completed. */
  lemma ListAtCallCompleted(steps: seq<SagaStep>, f: ForwardRun, j: nat)
    requires j < |steps| && |f.steps| == |steps| && Unstarted(steps)
    requires forall k :: 0 <= k < j ==> f.steps[k].status == StepStatus.Completed
    ensures CompletedSteps(ListAtCall(steps, f, j)) == f.steps[..j]
  {
    var front, rest := f.steps[..j], [steps[j].(status := StepStatus.InProgress)] + steps[j + 1..];
    forall k | 0 <= k < |rest|
      ensures rest[k].status != StepStatus.Completed
    {
      if k > 0 {
        assert rest[k] == steps[j + k];
      }
    }
    assert ListAtCall(steps, f, j) == front + rest;
    CompletedStepsPrefix(front, rest);
  }

  /** The steps before any step the forward phase called had all completed. */
  lemma ForwardBeforeCompleted(steps: seq<SagaStep>, call: Call, w: Tables, now: string, f: ForwardRun, j: nat)
    requires f == Forward(steps, 0, call, w, now) && j < |f.log|
    ensures j < |steps|
    ensures forall k :: 0 <= k < j ==> f.steps[k].status == StepStatus.Completed
  {
    forall k | 0 <= k < j
      ensures f.steps[k].status == StepStatus.Completed
    {
      ForwardCalled(steps, 0, call, w, now, f, k);
    }
  }

  /** The body filled from the list at a call is `_prepare_payload` over the earlier, completed steps. */
  lemma ListAtCallPrepared(steps: seq<SagaStep>, f: ForwardRun, j: nat)
    requires j < |steps| && |f.steps| == |steps| && Unstarted(steps)
    requires forall k :: 0 <= k < j ==> f.steps[k].status == StepStatus.Completed
    ensures PayloadFrom(steps[j].payload, ListAtCall(steps, f, j), |steps|) ==
              PreparedPayload(steps[j].payload, f.steps[..j])
  {
    var list := ListAtCall(steps, f, j);
    assert |list| == |steps|;
    ListAtCallCompleted(steps, f, j);
    PayloadFromAll(steps[j].payload, list);
  }

  /**
   * Over unstarted steps, every step the forward phase called was sent its
   * payload template filled from all the steps before it, which had all
   * completed: `_prepare_payload` over `get_completed_steps()`.
   */
  lemma ForwardPrepared(steps: seq<SagaStep>, call: Call, w: Tables, now: string, f: ForwardRun, j: nat)
    requires f == Forward(steps, 0, call, w, now) && Unstarted(steps) && j < |f.log|
    ensures j < |steps|
    ensures forall k :: 0 <= k < j ==> f.steps[k].status == StepStatus.Completed
    ensures f.log[j].request.json == Some(PreparedPayload(steps[j].payload, f.steps[..j]))
  {
    ForwardSent(steps, 0, call, w, now, f, j);
    ForwardBeforeCompleted(steps, call, w, now, f, j);
    ListAtCallPrepared(steps, f, j);
  }

  /** The requests of a whole run's forward phase carry the bodies `ForwardPrepared` states. */
  lemma RunSentPayloads(txId: string, steps: seq<SagaStep>, index: int, call: Call, w: Tables, now: string,
                        r: SagaRun, f: ForwardRun, j: nat)
    requires r == RunSaga(txId, steps, index, call, w, now) && f == Forward(steps, 0, call, w, now)
    requires Unstarted(steps) && j < |f.log|
    ensures j < |steps| && j < |r.log| && r.log[j] == f.log[j]
    ensures r.log[j].request.json == Some(PreparedPayload(steps[j].payload, f.steps[..j]))
  {
    ForwardPrepared(steps, call, w, now, f, j);
    assert r == Conclude(txId, f, index, call);
  }

  /**
   * A run whose step `i` failed without an exception: steps `0..i` were
   * called and nothing after them, step `i` got a reply that is not a
   * success, and the compensation follows. The run reports the failed
   * step's name and ends compensated, or failed when compensation raised.
   */
  lemma RunStopped(txId: string, steps: seq<SagaStep>, index: int, call: Call, w: Tables, now: string,
                   r: SagaRun, f: ForwardRun, i: nat)
    requires r == RunSaga(txId, steps, index, call, w, now) && f == Forward(steps, 0, call, w, now)
    requires f.stop == StoppedAt(i)
    ensures i < |steps| && |f.log| == i + 1 && r.index == i
    ensures r.log == f.log + Sweep(f, call).log
    ensures !ForwardSucceeded(r.log[i].reply) && !r.log[i].reply.Unexpected?
    ensures r.log[i].request.url == steps[i].url && r.log[i].request.verb == steps[i].httpMethod
    ensures Sweep(f, call).raised.None? ==>
              r.status == TransactionStatus.Compensated && r.summary == RolledBack(txId, steps[i].name)
    ensures Sweep(f, call).raised.Some? ==>
              r.status == TransactionStatus.Failed && r.summary == Faulted(txId, Sweep(f, call).raised.value)
              && r.log[|r.log| - 1].reply == Unexpected(Sweep(f, call).raised.value)
  {
    var c := Sweep(f, call);
    assert r == if c.raised.Some?
                then SagaRun(c.steps, TransactionStatus.Failed, i, c.world, f.log + c.log, Faulted(txId, c.raised.value))
                else SagaRun(c.steps, TransactionStatus.Compensated, i, c.world, f.log + c.log, RolledBack(txId, f.steps[i].name));
    ForwardStopped(steps, 0, call, w, now, f);
    ForwardCalled(steps, 0, call, w, now, f, i);
    ForwardKept(steps, 0, call, w, now, f, i);
    var plan := CompletedIndices(f.steps);
    CompensateLength(f.steps, plan, |plan|, call, f.world, c, SweepOrder(f));
  }

  /**
   * In a run of unstarted steps that stopped at step `i`, the steps before
   * `i` completed in the forward phase and the steps after it were not
   * called: they end as they began, pending. Step `i` ends failed, with an
   * error and no result.
   */
  lemma RunStoppedSteps(txId: string, steps: seq<SagaStep>, index: int, call: Call, w: Tables, now: string,
                        r: SagaRun, f: ForwardRun, i: nat)
    requires r == RunSaga(txId, steps, index, call, w, now) && f == Forward(steps, 0, call, w, now)
    requires f.stop == StoppedAt(i) && Unstarted(steps)
    ensures i < |steps|
    ensures r.steps[i].status == StepStatus.Failed && r.steps[i].error.Some? && r.steps[i].result.None?
    ensures forall j :: i < j < |steps| ==> r.steps[j] == steps[j]
    ensures forall j :: 0 <= j < |steps| ==> (f.steps[j].status == StepStatus.Completed <==> j < i)
  {
    assert r.steps == Sweep(f, call).steps;
    ForwardStopped(steps, 0, call, w, now, f);
    SweepUntouched(f, call, i);
    forall j | i < j < |steps|
      ensures f.steps[j] == steps[j] && r.steps[j] == steps[j]
    {
      ForwardKept(steps, 0, call, w, now, f, j);
      SweepUntouched(f, call, j);
    }
    forall j | 0 <= j < i
      ensures f.steps[j].status == StepStatus.Completed
    {
      ForwardCalled(steps, 0, call, w, now, f, j);
    }
  }

  /** Compensation leaves every step that was not completed as it was. */
  lemma SweepUntouched(f: ForwardRun, call: Call, j: nat)
    requires j < |f.steps| && f.steps[j].status != StepStatus.Completed
    ensures Sweep(f, call).steps[j] == f.steps[j]
  {
    var c := Sweep(f, call);
    var plan := CompletedIndices(f.steps);
    var order := SweepOrder(f);
    RollbackOrderMembers(f.steps, plan, |plan|);
    assert plan[..|plan|] == plan;
    forall m | 0 <= m < |c.log| && m < |order|
      ensures order[m] != j
    {
      assert order[m] in order;
    }
    CompensateUntouched(f.steps, plan, |plan|, call, f.world, c, order, j);
  }

  /**
   * The compensation of a run of unstarted steps that stopped at step `i`
   * calls exactly the eligible steps before `i`, from the last one down;
   * only an exception cuts the sweep short.
   */
  lemma RunRollbackOrder(txId: string, steps: seq<SagaStep>, index: int, call: Call, w: Tables, now: string,
                         r: SagaRun, f: ForwardRun, i: nat)
    requires r == RunSaga(txId, steps, index, call, w, now) && f == Forward(steps, 0, call, w, now)
    requires f.stop == StoppedAt(i) && Unstarted(steps)
    ensures var order := SweepOrder(f);
      && (forall m, m' :: 0 <= m < m' < |order| ==> order[m] > order[m'])
      && (forall j :: j in order <==> 0 <= j < i && RollbackEligible(f.steps[j]))
    ensures var c := Sweep(f, call);
      && |c.log| <= |SweepOrder(f)|
      && (c.raised.None? ==> |c.log| == |SweepOrder(f)|)
  {
    var plan := CompletedIndices(f.steps);
    RunStoppedSteps(txId, steps, index, call, w, now, r, f, i);
    RollbackOrderMembers(f.steps, plan, |plan|);
    assert plan[..|plan|] == plan;
    CompensateLength(f.steps, plan, |plan|, call, f.world, Sweep(f, call), SweepOrder(f));
  }

  /**
   * Each compensating request of a run goes to the rollback URL of the step
   * at that place in the order; the step ends compensated when the reply
   * was 200 or 204 and otherwise stays completed.
   */
  lemma RunRollbackCalls(txId: string, steps: seq<SagaStep>, index: int, call: Call, w: Tables, now: string,
                         r: SagaRun, f: ForwardRun, c: CompensationRun, order: seq<nat>, m: nat)
    requires r == RunSaga(txId, steps, index, call, w, now) && f == Forward(steps, 0, call, w, now)
    requires f.stop.StoppedAt? && c == Sweep(f, call) && order == SweepOrder(f)
    requires m < |c.log| && m < |order|
    ensures c.log[m].request == RollbackRequest(f.steps[order[m]])
    ensures r.steps[order[m]].status ==
              if RollbackSucceeded(c.log[m].reply) then StepStatus.Compensated else StepStatus.Completed
  {
    var plan := CompletedIndices(f.steps);
    RollbackOrderMembers(f.steps, plan, |plan|);
    assert plan[..|plan|] == plan;
    assert r.steps == c.steps;
    assert order[m] in order;
    assert f.steps[order[m]].status == StepStatus.Completed;
    CompensateAt(f.steps, plan, |plan|, call, f.world, c, order, m);
  }

  /**
   * A run in which step `i` raised fails with the exception's message; it
   * sends no compensating request, and step `i` stays in progress.
   */
  lemma RunRaised(txId: string, steps: seq<SagaStep>, index: int, call: Call, w: Tables, now: string,
                  r: SagaRun, f: ForwardRun, i: nat, reason: string)
    requires r == RunSaga(txId, steps, index, call, w, now) && f == Forward(steps, 0, call, w, now)
    requires f.stop == RaisedAt(i, reason)
    ensures r.status == TransactionStatus.Failed && r.summary == Faulted(txId, reason) && r.index == i
    ensures |r.log| == i + 1 && r.log[i].reply == Unexpected(reason)
    ensures forall m :: 0 <= m < |r.log| ==>
              r.log[m].request.url == steps[m].url && r.log[m].request.verb == steps[m].httpMethod
    ensures r.steps[i].status == StepStatus.InProgress
    ensures forall j :: i < j < |steps| ==> r.steps[j] == steps[j]
  {
    ForwardStopped(steps, 0, call, w, now, f);
    forall m | 0 <= m < |r.log|
      ensures r.log[m].request.url == steps[m].url && r.log[m].request.verb == steps[m].httpMethod
    {
      ForwardCalled(steps, 0, call, w, now, f, m);
    }
    forall j | i < j < |steps|
      ensures r.steps[j] == steps[j]
    {
      ForwardKept(steps, 0, call, w, now, f, j);
    }
  }
}
