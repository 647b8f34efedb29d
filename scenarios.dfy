/**
 * Whole runs of the Event Management saga against the participant services
 * themselves: the orchestrator's `call` is the deployment of `Services`, so
 * the requests the saga sends reach the four handlers over one store.
 */
module Scenarios {
  import opened Json
  import opened Http
  import opened Database
  import opened SagaModels
  import opened SagaExecution
  import opened Services
  import EventApi
  import EventDetailsApi

  /** The deployment answering the saga's calls at time `now`. */
  ghost function Deployment(now: string): Call {
    (t: Tables, req: Request) => Serve(now, t, req)
  }

  /** Steps that are not completed add nothing to a prepared payload. */
  lemma {:induction false} PayloadSkipsUncompleted(template: Dict, steps: seq<SagaStep>, m: nat, n: nat)
    requires m <= n <= |steps|
    requires forall j :: m <= j < n ==> steps[j].status != StepStatus.Completed
    ensures PayloadFrom(template, steps, n) == PayloadFrom(template, steps, m)
    decreases n
  {
    if m < n {
      PayloadSkipsUncompleted(template, steps, m, n - 1);
    }
  }

  /** With no step completed, compensation has nothing to roll back. */
  lemma NothingCompleted(steps: seq<SagaStep>)
    requires forall j :: 0 <= j < |steps| ==> steps[j].status != StepStatus.Completed
    ensures CompletedIndices(steps) == []
  {
    var ix := CompletedIndices(steps);
    assert forall k :: 0 <= k < |ix| ==> ix[k] in ix && ix[k] < |steps|;
    if ix != [] {
      assert false;
    }
  }

  /** A run stopped at step `i` whose compensation raised nothing ends compensated, naming step `i`. */
  lemma ConcludeRolledBack(txId: string, f: ForwardRun, index: int, call: Call)
    requires f.stop.StoppedAt? && f.stop.index < |f.steps| && Sweep(f, call).raised.None?
    ensures var c := Sweep(f, call);
      Conclude(txId, f, index, call) ==
        SagaRun(c.steps, TransactionStatus.Compensated, f.stop.index, c.world, f.log + c.log,
                RolledBack(txId, f.steps[f.stop.index].name))
  {
  }

  /** A whole run, for any participants, whose forward phase stopped and whose compensation raised nothing. */
  lemma RunRolledBack(txId: string, steps: seq<SagaStep>, index: int, call: Call, w: Tables, now: string,
                      f: ForwardRun, c: CompensationRun)
    requires f == Forward(steps, 0, call, w, now) && f.stop.StoppedAt?
    requires c == Sweep(f, call) && c.raised.None?
    ensures RunSaga(txId, steps, index, call, w, now) ==
              SagaRun(c.steps, TransactionStatus.Compensated, f.stop.index, c.world, f.log + c.log,
                      RolledBack(txId, f.steps[f.stop.index].name))
  {
    ConcludeRolledBack(txId, f, index, call);
  }

  /** A whole run, for any participants, stopped by its first step: nothing was completed, so nothing is rolled back. */
  lemma RunStopsAtFirst(txId: string, steps: seq<SagaStep>, index: int, call: Call, w: Tables, now: string, a: Attempt)
    requires |steps| > 0 && a == AttemptStep(steps, 0, call, w, now) && a.outcome == Stopped
    requires a.step.status != StepStatus.Completed
    requires forall j :: 0 <= j < |steps| ==> steps[j].status != StepStatus.Completed
    ensures RunSaga(txId, steps, index, call, w, now) ==
              SagaRun(steps[0 := a.step], TransactionStatus.Compensated, 0, a.world, [a.exchange],
                      RolledBack(txId, a.step.name))
  {
    var f := Forward(steps, 0, call, w, now);
    var b := ForwardEnds(steps, 0, call, w, now, f);
    NothingCompleted(f.steps);
    assert Sweep(f, call) == CompensationRun(f.steps, a.world, [], None);
    ConcludeRolledBack(txId, f, index, call);
  }

  /**
   * The event's own fields, with or without values from the caller, satisfy
   * the event participant's required-field check.
   */
  lemma EventPayloadWellFormed(data: Dict)
    ensures MissingField(EventPayload(data), EventApi.EventFields).None?
  {
    var p := EventPayload(data);
    assert HasKey(p, "name");
    assert HasKey(p, "description") by { GetFirst(p, "description", 1); }
    assert HasKey(p, "date") by { GetFirst(p, "date", 2); }
    MissingFieldFirst(p, EventApi.EventFields);
  }

  /**
   * Step `i`'s attempt when the call answers its request, prepared into
   * `payload`, with `out` and no exception: the step is settled by the reply
   * and the tables are those the call left.
   */
  lemma AttemptAnswered(steps: seq<SagaStep>, i: nat, call: Call, w: Tables, now: string, payload: Dict,
                        out: (Reply, Tables))
    requires i < |steps|
    requires PayloadFrom(steps[i].payload, steps[i := steps[i].(status := StepStatus.InProgress)], |steps|) == payload
    requires call(w, Request(steps[i].httpMethod, steps[i].url, Some(payload))) == out && !out.0.Unexpected?
    ensures var a := AttemptStep(steps, i, call, w, now);
      && a.world == out.1
      && a.exchange == Exchange(Request(steps[i].httpMethod, steps[i].url, Some(payload)), out.0)
      && a.step == Settle(steps[i].(status := StepStatus.InProgress), out.0, now)
      && a.outcome == if ForwardSucceeded(out.0) then Done else Stopped
  {
  }

  /** The event step is sent its template as it is: no step before it has completed. */
  lemma EventRequest(data: Dict, stepIds: seq<string>, now: string)
    requires |stepIds| == 4
    ensures var steps := EventManagementSteps(data, stepIds, now);
      PayloadFrom(steps[0].payload, steps[0 := steps[0].(status := StepStatus.InProgress)], 4) == EventPayload(data)
  {
    var steps := EventManagementSteps(data, stepIds, now);
    assert steps[0].payload == EventPayload(data);
    PayloadSkipsUncompleted(EventPayload(data), steps[0 := steps[0].(status := StepStatus.InProgress)], 0, 4);
  }

  /** The event participant, reached through the deployment, answers the event step's request. */
  lemma EventAnswer(data: Dict, w: Tables, now: string)
    ensures var out := Deployment(now)(w, Request("POST", RegisterUrl("/api/event"), Some(EventPayload(data))));
      var e := FreshKey(w.events.Keys);
      && out.0.Answered?
      && (Get(data, "fail_at_step") == Some(Str("event")) ==>
            out == (Answered(ErrorResponse(500, "Simulated failure in event registration")), w))
      && (Get(data, "fail_at_step") != Some(Str("event")) ==>
            && out.0.response.status == 201 && Get(out.0.response.body, "event_id") == Some(Str(e))
            && out.1 == w.(events := w.events[e := EventRecord(e, EventPayload(data), now)]))
  {
    ServeRegister(now, w, 0, Some(EventPayload(data)));
    EventPayloadWellFormed(data);
  }

  /**
   * The event step when `fail_at_step` names it: the event participant
   * answers 500 and the store is left alone.
   */
  lemma EventStepFails(data: Dict, stepIds: seq<string>, now: string, w: Tables) returns (a: Attempt)
    requires |stepIds| == 4 && Get(data, "fail_at_step") == Some(Str("event"))
    ensures a == AttemptStep(EventManagementSteps(data, stepIds, now), 0, Deployment(now), w, now)
    ensures a.outcome == Stopped && a.world == w && a.step.status == StepStatus.Failed
    ensures a.exchange.request == Request("POST", RegisterUrl("/api/event"), Some(EventPayload(data)))
    ensures a.exchange.reply == Answered(ErrorResponse(500, "Simulated failure in event registration"))
  {
    var steps := EventManagementSteps(data, stepIds, now);
    var req := Request("POST", RegisterUrl("/api/event"), Some(EventPayload(data)));
    EventRequest(data, stepIds, now);
    EventAnswer(data, w, now);
    AttemptAnswered(steps, 0, Deployment(now), w, now, EventPayload(data), Deployment(now)(w, req));
    a := AttemptStep(steps, 0, Deployment(now), w, now);
  }

  /**
   * `fail_at_step` = 'event': the first registration answers 500, the saga
   * sends nothing else (no step was completed, so nothing is rolled back),
   * and it ends compensated, naming the event step, with the store as it was.
   */
  lemma FailAtEvent(txId: string, data: Dict, stepIds: seq<string>, now: string, w: Tables)
    requires |stepIds| == 4 && Get(data, "fail_at_step") == Some(Str("event"))
    ensures var r := RunSaga(txId, EventManagementSteps(data, stepIds, now), 0, Deployment(now), w, now);
      && r.summary == RolledBack(txId, "Event Registration")
      && r.status == TransactionStatus.Compensated
      && r.world == w
      && |r.log| == 1
      && r.log[0].request == Request("POST", RegisterUrl("/api/event"), Some(EventPayload(data)))
      && r.log[0].reply == Answered(ErrorResponse(500, "Simulated failure in event registration"))
      && r.steps[0].status == StepStatus.Failed
      && forall j :: 1 <= j < 4 ==> r.steps[j].status == StepStatus.Pending
  {
    var steps := EventManagementSteps(data, stepIds, now);
    var a := EventStepFails(data, stepIds, now, w);
    RunStopsAtFirst(txId, steps, 0, Deployment(now), w, now, a);
  }

  /** With only the first step completed, compensation has that one step to roll back. */
  lemma FirstCompleted(steps: seq<SagaStep>)
    requires |steps| > 0 && steps[0].status == StepStatus.Completed
    requires forall j :: 1 <= j < |steps| ==> steps[j].status != StepStatus.Completed
    ensures CompletedIndices(steps) == [0]
  {
    var ix := CompletedIndices(steps);
    assert 0 in ix;
    if |ix| > 1 {
      assert false;
    }
    assert ix[0] == 0;
  }

  /**
   * The details fields, once the event's identifier is copied in from the
   * event step's result, pass the details participant's required-field check
   * and name that event.
   */
  lemma DetailsPayloadWellFormed(data: Dict, result: Dict, e: string)
    requires Get(result, "event_id") == Some(Str(e))
    ensures var p := CopyIds(DetailsPayload(data), result);
      && MissingField(p, EventDetailsApi.DetailsFields).None?
      && GetOrNull(p, "event_id") == Str(e)
      && Get(p, "simulate_failure") == Some(FailFlag(data, "event_details"))
  {
    var t := DetailsPayload(data);
    CopyIdsLookup(t, result, "event_id");
    CopyIdsLookup(t, result, "detailed_description");
    CopyIdsLookup(t, result, "duration");
    GetFirst(t, "duration", 1);
    CopyIdsLookup(t, result, "category");
    GetFirst(t, "category", 2);
    CopyIdsLookup(t, result, "simulate_failure");
    MissingFieldFirst(CopyIds(t, result), EventDetailsApi.DetailsFields);
  }

  /**
   * The event step when `fail_at_step` does not name it: the event
   * participant answers 201 and stores the event under a fresh identifier,
   * which the step's result carries.
   */
  lemma EventStepSucceeds(data: Dict, stepIds: seq<string>, now: string, w: Tables) returns (a: Attempt)
    requires |stepIds| == 4 && Get(data, "fail_at_step") != Some(Str("event"))
    ensures var e := FreshKey(w.events.Keys);
      && a == AttemptStep(EventManagementSteps(data, stepIds, now), 0, Deployment(now), w, now)
      && a.outcome == Done && a.step.status == StepStatus.Completed && RollbackEligible(a.step)
      && a.step.rollbackUrl == Some(RollbackTemplate("/api/event", "event_id")) && a.step.rollbackMethod == "DELETE"
      && Get(a.step.result.value, "event_id") == Some(Str(e))
      && a.world == w.(events := w.events[e := EventRecord(e, EventPayload(data), now)])
  {
    var steps := EventManagementSteps(data, stepIds, now);
    var req := Request("POST", RegisterUrl("/api/event"), Some(EventPayload(data)));
    EventRequest(data, stepIds, now);
    EventAnswer(data, w, now);
    AttemptAnswered(steps, 0, Deployment(now), w, now, EventPayload(data), Deployment(now)(w, req));
    a := AttemptStep(steps, 0, Deployment(now), w, now);
  }

  /**
   * The details step after the event step completed with event `e`, when
   * `fail_at_step` names it: the payload carries `e`, the event exists, and
   * the participant answers 500 without touching the store.
   */
  lemma DetailsStepFails(data: Dict, stepIds: seq<string>, now: string, s0: SagaStep, w: Tables, e: string)
    returns (a: Attempt)
    requires |stepIds| == 4 && Get(data, "fail_at_step") == Some(Str("event_details"))
    requires s0.status == StepStatus.Completed && HasResult(s0) && Get(s0.result.value, "event_id") == Some(Str(e))
    requires e in w.events && w.events[e] != []
    ensures a == AttemptStep(EventManagementSteps(data, stepIds, now)[0 := s0], 1, Deployment(now), w, now)
    ensures a.outcome == Stopped && a.world == w && a.step.status == StepStatus.Failed
    ensures a.step.name == "Event Details Registration"
  {
    var steps := EventManagementSteps(data, stepIds, now)[0 := s0];
    var payload := CopyIds(DetailsPayload(data), s0.result.value);
    var req := Request("POST", RegisterUrl("/api/event-details"), Some(payload));
    DetailsRequest(data, stepIds, now, s0);
    DetailsAnswer(data, s0.result.value, e, w, now);
    AttemptAnswered(steps, 1, Deployment(now), w, now, payload, Deployment(now)(w, req));
    a := AttemptStep(steps, 1, Deployment(now), w, now);
  }

  /**
   * The details step, after the event step completed, is sent its template
   * with the event step's identifiers copied in.
   */
  lemma DetailsRequest(data: Dict, stepIds: seq<string>, now: string, s0: SagaStep)
    requires |stepIds| == 4 && s0.status == StepStatus.Completed && HasResult(s0)
    ensures var steps := EventManagementSteps(data, stepIds, now)[0 := s0];
      PayloadFrom(steps[1].payload, steps[1 := steps[1].(status := StepStatus.InProgress)], 4) ==
        CopyIds(DetailsPayload(data), s0.result.value)
  {
    var steps := EventManagementSteps(data, stepIds, now)[0 := s0];
    var ss := steps[1 := steps[1].(status := StepStatus.InProgress)];
    assert steps[1].payload == DetailsPayload(data);
    PayloadSkipsUncompleted(DetailsPayload(data), ss, 1, 4);
    assert PayloadFrom(DetailsPayload(data), ss, 1) == CopyIds(DetailsPayload(data), s0.result.value);
  }

  /**
   * The details participant, reached through the deployment, answers 500 to
   * a flagged details request naming an existing event, and leaves the store
   * alone.
   */
  lemma DetailsAnswer(data: Dict, result: Dict, e: string, w: Tables, now: string)
    requires Get(data, "fail_at_step") == Some(Str("event_details"))
    requires Get(result, "event_id") == Some(Str(e)) && e in w.events && w.events[e] != []
    ensures Deployment(now)(w, Request("POST", RegisterUrl("/api/event-details"), Some(CopyIds(DetailsPayload(data), result))))
              == (Answered(ErrorResponse(500, "Simulated failure in event details registration")), w)
  {
    DetailsPayloadWellFormed(data, result, e);
    ServeRegister(now, w, 1, Some(CopyIds(DetailsPayload(data), result)));
  }

  /**
   * Rolling the event step back: its rollback URL names event `e`, and the
   * event participant answers 200 and removes exactly the event the step
   * added.
   */
  lemma EventStepRolledBack(steps: seq<SagaStep>, e: string, w: Tables, record: Dict, now: string)
    returns (rb: RollbackResult)
    requires |steps| > 0 && RollbackEligible(steps[0]) && steps[0].rollbackMethod == "DELETE"
    requires steps[0].rollbackUrl == Some(RollbackTemplate("/api/event", "event_id"))
    requires Get(steps[0].result.value, "event_id") == Some(Str(e))
    requires |e| > 0 && forall c :: c in e ==> c == 'x'
    requires e !in w.events
    ensures rb == RollbackAttempt(steps, 0, Deployment(now), w.(events := w.events[e := record]))
    ensures rb.raised.None? && rb.world == w
    ensures rb.exchange.request == Request("DELETE", RollbackPrefix(0) + e, None)
    ensures rb.steps == steps[0 := steps[0].(status := StepStatus.Compensated)]
  {
    var s0 := steps[0];
    assert RollbackTemplate("/api/event", "event_id") == RollbackPrefix(0) + "{" + "event_id" + "}";
    FillTemplate(RollbackPrefix(0), "event_id", s0.result.value);
    var w1 := w.(events := w.events[e := record]);
    ServeRollback(now, w1, 0, e);
    RemoveAdded(w.events, e, w1.events);
    rb := RollbackAttempt(steps, 0, Deployment(now), w1);
  }

  /** A forward phase whose first step completes and whose second step fails stops after two calls. */
  lemma StopsAtSecond(steps: seq<SagaStep>, call: Call, w: Tables, now: string, a0: Attempt, a1: Attempt)
    requires 2 <= |steps|
    requires a0 == AttemptStep(steps, 0, call, w, now) && a0.outcome == Done
    requires a1 == AttemptStep(steps[0 := a0.step], 1, call, a0.world, now) && a1.outcome == Stopped
    ensures Forward(steps, 0, call, w, now) ==
              ForwardRun(steps[0 := a0.step][1 := a1.step], a1.world, [a0.exchange, a1.exchange], StoppedAt(1))
  {
    var f := Forward(steps, 0, call, w, now);
    var a, rest := ForwardDone(steps, 0, call, w, now, f);
    var b := ForwardEnds(steps[0 := a0.step], 1, call, a0.world, now, rest);
  }

  /** Compensation over a forward phase that completed only its first step is that step's rollback alone. */
  lemma SweepsFirstOnly(f: ForwardRun, call: Call, rb: RollbackResult)
    requires |f.steps| > 0 && f.steps[0].status == StepStatus.Completed && RollbackEligible(f.steps[0])
    requires forall j :: 1 <= j < |f.steps| ==> f.steps[j].status != StepStatus.Completed
    requires rb == RollbackAttempt(f.steps, 0, call, f.world) && rb.raised.None?
    ensures Sweep(f, call) == CompensationRun(rb.steps, rb.world, [rb.exchange], None)
  {
    FirstCompleted(f.steps);
  }

  /**
   * The forward phase when `fail_at_step` = 'event_details': the event step
   * completes with a fresh event, the details step fails, and the phase stops
   * there.
   */
  lemma DetailsForward(data: Dict, stepIds: seq<string>, now: string, w: Tables) returns (a0: Attempt, a1: Attempt)
    requires |stepIds| == 4 && Get(data, "fail_at_step") == Some(Str("event_details"))
    ensures var steps := EventManagementSteps(data, stepIds, now);
      Forward(steps, 0, Deployment(now), w, now) ==
        ForwardRun(steps[0 := a0.step][1 := a1.step], a0.world, [a0.exchange, a1.exchange], StoppedAt(1))
    ensures var e := FreshKey(w.events.Keys);
      && a0.step.status == StepStatus.Completed && RollbackEligible(a0.step)
      && a0.step.rollbackUrl == Some(RollbackTemplate("/api/event", "event_id")) && a0.step.rollbackMethod == "DELETE"
      && Get(a0.step.result.value, "event_id") == Some(Str(e))
      && a0.world == w.(events := w.events[e := EventRecord(e, EventPayload(data), now)])
      && a1.step.status == StepStatus.Failed && a1.world == a0.world
      && a1.step.name == "Event Details Registration"
  {
    var steps := EventManagementSteps(data, stepIds, now);
    var e := FreshKey(w.events.Keys);
    a0 := EventStepSucceeds(data, stepIds, now, w);
    a1 := DetailsStepFails(data, stepIds, now, a0.step, a0.world, e);
    StopsAtSecond(steps, Deployment(now), w, now, a0, a1);
  }

  /**
   * The compensation after that forward phase: the event step is the only
   * completed one, so one DELETE removes its event and the store is back to
   * `w`.
   */
  lemma DetailsSweep(txId: string, f: ForwardRun, now: string, steps: seq<SagaStep>, s0: SagaStep, s1: SagaStep,
                     w: Tables, e: string, record: Dict)
    requires 2 <= |steps| && forall j :: 2 <= j < |steps| ==> steps[j].status != StepStatus.Completed
    requires f.steps == steps[0 := s0][1 := s1] && s1.status != StepStatus.Completed
    requires s0.status == StepStatus.Completed && RollbackEligible(s0)
    requires s0.rollbackUrl == Some(RollbackTemplate("/api/event", "event_id")) && s0.rollbackMethod == "DELETE"
    requires Get(s0.result.value, "event_id") == Some(Str(e))
    requires |e| > 0 && (forall c :: c in e ==> c == 'x') && e !in w.events
    requires f.world == w.(events := w.events[e := record]) && f.stop == StoppedAt(1)
    ensures var c := Sweep(f, Deployment(now));
      && c.raised.None? && c.world == w && |c.log| == 1
      && c.log[0].request == Request("DELETE", RollbackPrefix(0) + e, None)
      && Conclude(txId, f, 0, Deployment(now)) ==
           SagaRun(c.steps, TransactionStatus.Compensated, 1, w, f.log + c.log, RolledBack(txId, s1.name))
  {
    assert f.steps[0] == s0;
    var rb := EventStepRolledBack(f.steps, e, w, record, now);
    forall j | 1 <= j < |f.steps|
      ensures f.steps[j].status != StepStatus.Completed
    {
      if j > 1 { assert f.steps[j] == steps[j]; }
    }
    SweepsFirstOnly(f, Deployment(now), rb);
    ConcludeRolledBack(txId, f, 0, Deployment(now));
  }

  /**
   * `fail_at_step` = 'event_details': the event is registered, the details
   * registration answers 500, the saga rolls the event back through the
   * event participant and ends compensated, naming the details step, with
   * the store as it began.
   */
  lemma FailAtEventDetails(txId: string, data: Dict, stepIds: seq<string>, now: string, w: Tables)
    requires |stepIds| == 4 && Get(data, "fail_at_step") == Some(Str("event_details"))
    ensures var r := RunSaga(txId, EventManagementSteps(data, stepIds, now), 0, Deployment(now), w, now);
      && r.summary == RolledBack(txId, "Event Details Registration")
      && r.status == TransactionStatus.Compensated
      && r.world == w
      && |r.log| == 3
      && r.log[2].request == Request("DELETE", RollbackPrefix(0) + FreshKey(w.events.Keys), None)
  {
    var steps := EventManagementSteps(data, stepIds, now);
    var a0, a1 := DetailsForward(data, stepIds, now, w);
    var f := ForwardRun(steps[0 := a0.step][1 := a1.step], a0.world, [a0.exchange, a1.exchange], StoppedAt(1));
    var e := FreshKey(w.events.Keys);
    DetailsSweep(txId, f, now, steps, a0.step, a1.step, w, e, EventRecord(e, EventPayload(data), now));
  }
}
