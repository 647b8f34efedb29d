/**
 * Saga steps and transactions: the two status enumerations, a step record,
 * the transaction the orchestrator updates in place, the queries over its
 * step list, and the fixed four-step "Event Management" saga.
 */
module SagaModels {
  import opened Json

  /** `SagaStepStatus` */
  datatype StepStatus = Pending | InProgress | Completed | Failed | Compensated
  {
    /** The enumeration member's `.value`. */
    function Value(): string {
      match this
      case Pending => "pending"
      case InProgress => "in_progress"
      case Completed => "completed"
      case Failed => "failed"
      case Compensated => "compensated"
    }
  }

  /** `SagaStepStatus(s)`: the member with value `s`, if any. */
  function ParseStepStatus(s: string): (r: Option<StepStatus>)
    ensures r.Some? ==> r.value.Value() == s
    ensures forall st: StepStatus :: st.Value() == s ==> r == Some(st)
  {
    if s == "pending" then Some(StepStatus.Pending)
    else if s == "in_progress" then Some(StepStatus.InProgress)
    else if s == "completed" then Some(StepStatus.Completed)
    else if s == "failed" then Some(StepStatus.Failed)
    else if s == "compensated" then Some(StepStatus.Compensated)
    else None
  }

  /** `SagaTransactionStatus` */
  datatype TransactionStatus = Pending | InProgress | Completed | Failed | Compensating | Compensated
  {
    function Value(): string {
      match this
      case Pending => "pending"
      case InProgress => "in_progress"
      case Completed => "completed"
      case Failed => "failed"
      case Compensating => "compensating"
      case Compensated => "compensated"
    }
  }

  /** `SagaTransactionStatus(s)`: the member with value `s`, if any. */
  function ParseTransactionStatus(s: string): (r: Option<TransactionStatus>)
    ensures r.Some? ==> r.value.Value() == s
    ensures forall st: TransactionStatus :: st.Value() == s ==> r == Some(st)
  {
    if s == "pending" then Some(TransactionStatus.Pending)
    else if s == "in_progress" then Some(TransactionStatus.InProgress)
    else if s == "completed" then Some(TransactionStatus.Completed)
    else if s == "failed" then Some(TransactionStatus.Failed)
    else if s == "compensating" then Some(TransactionStatus.Compensating)
    else if s == "compensated" then Some(TransactionStatus.Compensated)
    else None
  }

  /**
   * Why a step failed: a non-success status code, or a transport failure
   * with its reason.
   */
  datatype StepError = HttpStatus(code: int) | RequestFailed(reason: string)
  {
    function Text(): string {
      match this
      case HttpStatus(code) => "HTTP " + IntToDecimal(code)
      case RequestFailed(reason) => "Request failed: " + reason
    }
  }

  /** `SagaStep`: one participant call and its compensating call. */
  datatype SagaStep = SagaStep(
    stepId: string,
    name: string,
    url: string,
    httpMethod: string,
    payload: Dict,
    rollbackUrl: Option<string>,
    rollbackMethod: string,
    status: StepStatus,
    result: Option<Dict>,
    error: Option<StepError>,
    createdAt: string,
    completedAt: Option<string>)

  /**
   * A new step as the dataclass builds it: pending, with no result, `payload`
   * defaulted to `{}`, and the dataclass's defaults POST for the method and
   * DELETE for the rollback method when the caller gives none.
   */
  function NewStep(stepId: string, name: string, url: string, now: string, httpMethod: string := "POST",
                   payload: Option<Dict> := None, rollbackUrl: Option<string> := None,
                   rollbackMethod: string := "DELETE"): (s: SagaStep)
    ensures s.status == StepStatus.Pending && s.httpMethod == httpMethod
    ensures s.result.None? && s.error.None? && s.completedAt.None?
    ensures s.payload == if payload.None? then [] else payload.value
    ensures s.stepId == stepId && s.name == name && s.url == url && s.createdAt == now
    ensures s.rollbackUrl == rollbackUrl && s.rollbackMethod == rollbackMethod
  {
    SagaStep(stepId, name, url, httpMethod, if payload.None? then [] else payload.value,
             rollbackUrl, rollbackMethod, StepStatus.Pending, None, None, now, None)
  }

  // ----- queries over the step list -----

  /** The positions of the completed steps, in list order. */
  function CompletedIndices(steps: seq<SagaStep>): (ix: seq<nat>)
    ensures forall j, k :: 0 <= j < k < |ix| ==> ix[j] < ix[k]
    ensures forall k :: 0 <= k < |ix| ==> ix[k] < |steps|
    ensures forall i :: 0 <= i < |steps| ==> (steps[i].status == StepStatus.Completed <==> i in ix)
  {
    if |steps| == 0 then []
    else
      var n := |steps| - 1;
      var front := CompletedIndices(steps[..n]);
      assert forall i :: 0 <= i < n ==> steps[..n][i] == steps[i];
      if steps[n].status == StepStatus.Completed then front + [n] else front
  }

  /** `get_completed_steps()`: the completed steps in their original order. */
  function CompletedSteps(steps: seq<SagaStep>): (r: seq<SagaStep>)
    ensures |r| == |CompletedIndices(steps)|
    ensures forall k :: 0 <= k < |r| ==> r[k] == steps[CompletedIndices(steps)[k]]
  {
    if |steps| == 0 then []
    else
      var n := |steps| - 1;
      var front := CompletedSteps(steps[..n]);
      assert forall k :: 0 <= k < |front| ==> front[k] == steps[CompletedIndices(steps[..n])[k]];
      if steps[n].status == StepStatus.Completed then front + [steps[n]] else front
  }

  /** Every step in `CompletedSteps` is completed, and every completed step is in it. */
  lemma CompletedStepsMembers(steps: seq<SagaStep>)
    ensures forall s :: s in CompletedSteps(steps) ==> s.status == StepStatus.Completed
    ensures forall i :: 0 <= i < |steps| && steps[i].status == StepStatus.Completed ==> steps[i] in CompletedSteps(steps)
  {
    var ix := CompletedIndices(steps);
    var r := CompletedSteps(steps);
    forall i | 0 <= i < |steps| && steps[i].status == StepStatus.Completed
      ensures steps[i] in r
    {
      var k :| 0 <= k < |ix| && ix[k] == i;
      assert r[k] == steps[i];
    }
  }

  /** `is_completed()`: `all(...)` over the steps; true for an empty list. */
  function AllCompleted(steps: seq<SagaStep>): (b: bool)
    ensures b <==> forall i :: 0 <= i < |steps| ==> steps[i].status == StepStatus.Completed
  {
    if |steps| == 0 then true
    else
      assert forall i :: 1 <= i < |steps| ==> steps[i] == steps[1..][i - 1];
      steps[0].status == StepStatus.Completed && AllCompleted(steps[1..])
  }

  /** `has_failed_step()`: `any(...)` over the steps. */
  function AnyFailed(steps: seq<SagaStep>): (b: bool)
    ensures b <==> exists i :: 0 <= i < |steps| && steps[i].status == StepStatus.Failed
  {
    if |steps| == 0 then false
    else
      assert forall i :: 1 <= i < |steps| ==> steps[i] == steps[1..][i - 1];
      steps[0].status == StepStatus.Failed || AnyFailed(steps[1..])
  }

  lemma CompletedStepsLast(steps: seq<SagaStep>)
    requires steps != []
    ensures CompletedSteps(steps) ==
              CompletedSteps(steps[..|steps| - 1])
              + if steps[|steps| - 1].status == StepStatus.Completed then [steps[|steps| - 1]] else []
  {
  }

  /** `get_completed_steps()` of a list whose steps are all completed is the whole list. */
  lemma {:induction false} CompletedStepsOfCompleted(steps: seq<SagaStep>)
    requires forall k :: 0 <= k < |steps| ==> steps[k].status == StepStatus.Completed
    ensures CompletedSteps(steps) == steps
  {
    if steps != [] {
      var n := |steps| - 1;
      CompletedStepsOfCompleted(steps[..n]);
      CompletedStepsLast(steps);
      assert steps[..n] + [steps[n]] == steps;
    }
  }

  /** Steps that are not completed add nothing to `get_completed_steps()`. */
  lemma {:induction false} CompletedStepsNoneAfter(front: seq<SagaStep>, back: seq<SagaStep>)
    requires forall k :: 0 <= k < |back| ==> back[k].status != StepStatus.Completed
    ensures CompletedSteps(front + back) == CompletedSteps(front)
    decreases |back|
  {
    if back != [] {
      var n := |back| - 1;
      assert (front + back)[..|front + back| - 1] == front + back[..n];
      assert (front + back)[|front + back| - 1] == back[n];
      CompletedStepsLast(front + back);
      assert forall k :: 0 <= k < n ==> back[..n][k] == back[k];
      CompletedStepsNoneAfter(front, back[..n]);
    } else {
      assert front + back == front;
    }
  }

  /** Completed steps followed by steps that are not: `get_completed_steps()` is the first part. */
  lemma CompletedStepsPrefix(front: seq<SagaStep>, back: seq<SagaStep>)
    requires forall k :: 0 <= k < |front| ==> front[k].status == StepStatus.Completed
    requires forall k :: 0 <= k < |back| ==> back[k].status != StepStatus.Completed
    ensures CompletedSteps(front + back) == front
  {
    CompletedStepsNoneAfter(front, back);
    CompletedStepsOfCompleted(front);
  }

  lemma AllCompletedLast(steps: seq<SagaStep>)
    requires steps != []
    ensures AllCompleted(steps) <==>
              AllCompleted(steps[..|steps| - 1]) && steps[|steps| - 1].status == StepStatus.Completed
  {
    assert forall i :: 0 <= i < |steps| - 1 ==> steps[..|steps| - 1][i] == steps[i];
  }

  /**
   * There are never more completed steps than steps, and as many exactly
   * when every step is completed.
   */
  lemma {:induction false} CompletedCount(steps: seq<SagaStep>)
    ensures |CompletedSteps(steps)| <= |steps|
    ensures |CompletedSteps(steps)| == |steps| <==> AllCompleted(steps)
  {
    if |steps| != 0 {
      CompletedCount(steps[..|steps| - 1]);
      CompletedStepsLast(steps);
      AllCompletedLast(steps);
    }
  }

  /** `get_current_step()`: the step at `index` when it is a valid position, else none. */
  function CurrentStep(steps: seq<SagaStep>, index: int): (r: Option<SagaStep>)
    ensures r.Some? <==> 0 <= index < |steps|
    ensures r.Some? ==> r.value == steps[index]
  {
    if 0 <= index < |steps| then Some(steps[index]) else None
  }

  // ----- serialisation -----

  function OptionalString(s: Option<string>): Value {
    if s.None? then Null else Str(s.value)
  }

  function OptionalObject(d: Option<Dict>): Value {
    if d.None? then Null else Object(d.value)
  }

  function OptionalError(e: Option<StepError>): Value {
    if e.None? then Null else Str(e.value.Text())
  }

  /** One element of `to_dict()['steps']`. */
  function StepDict(s: SagaStep): (d: Dict)
    ensures Get(d, "step_id") == Some(Str(s.stepId))
    ensures Get(d, "status") == Some(Str(s.status.Value()))
    ensures Get(d, "result") == Some(OptionalObject(s.result))
  {
    var d := [("step_id", Str(s.stepId)),
              ("name", Str(s.name)),
              ("url", Str(s.url)),
              ("method", Str(s.httpMethod)),
              ("payload", Object(s.payload)),
              ("rollback_url", OptionalString(s.rollbackUrl)),
              ("rollback_method", Str(s.rollbackMethod)),
              ("status", Str(s.status.Value())),
              ("result", OptionalObject(s.result)),
              ("error", OptionalError(s.error)),
              ("created_at", Str(s.createdAt)),
              ("completed_at", OptionalString(s.completedAt))];
    GetFirst(d, "step_id", 0);
    GetFirst(d, "status", 7);
    GetFirst(d, "result", 8);
    d
  }

  /** `to_dict()['steps']`: one object per step, in step order. */
  function StepsValue(steps: seq<SagaStep>): (v: Value)
    ensures v.List? && |v.items| == |steps|
    ensures forall i :: 0 <= i < |steps| ==> v.items[i] == Object(StepDict(steps[i]))
  {
    List(seq(|steps|, i requires 0 <= i < |steps| => Object(StepDict(steps[i]))))
  }

  /** `[step.name for step in steps]` */
  function StepNames(steps: seq<SagaStep>): (v: Value)
    ensures v.List? && |v.items| == |steps|
    ensures forall i :: 0 <= i < |steps| ==> v.items[i] == Str(steps[i].name)
  {
    List(seq(|steps|, i requires 0 <= i < |steps| => Str(steps[i].name)))
  }

  /** `SagaTransaction`: the saga the orchestrator runs and updates in place. */
  class SagaTransaction {
    const transactionId: string
    const name: string
    var steps: seq<SagaStep>
    var status: TransactionStatus
    var currentStepIndex: int
    var metadata: Dict
    var createdAt: string
    var updatedAt: string

    /** A new transaction: pending, at index 0, with `metadata` defaulted to `{}`. */
    constructor (transactionId: string, name: string, steps: seq<SagaStep>, metadata: Option<Dict>, now: string)
      ensures this.transactionId == transactionId && this.name == name && this.steps == steps
      ensures status == TransactionStatus.Pending && currentStepIndex == 0
      ensures this.metadata == if metadata.None? then [] else metadata.value
      ensures createdAt == now && updatedAt == now
    {
      this.transactionId := transactionId;
      this.name := name;
      this.steps := steps;
      status := TransactionStatus.Pending;
      currentStepIndex := 0;
      this.metadata := if metadata.None? then [] else metadata.value;
      createdAt := now;
      updatedAt := now;
    }

    function GetCurrentStep(): (r: Option<SagaStep>)
      reads this
      ensures r.Some? <==> 0 <= currentStepIndex < |steps|
      ensures r.Some? ==> r.value == steps[currentStepIndex]
    {
      CurrentStep(steps, currentStepIndex)
    }

    function GetCompletedSteps(): (r: seq<SagaStep>)
      reads this
      ensures |r| == |CompletedIndices(steps)| <= |steps|
      ensures forall k :: 0 <= k < |r| ==> r[k] == steps[CompletedIndices(steps)[k]]
      ensures forall s :: s in r ==> s.status == StepStatus.Completed
    {
      CompletedStepsMembers(steps);
      CompletedCount(steps);
      CompletedSteps(steps)
    }

    function IsCompleted(): (b: bool)
      reads this
      ensures b <==> forall i :: 0 <= i < |steps| ==> steps[i].status == StepStatus.Completed
      ensures b <==> |GetCompletedSteps()| == |steps|
    {
      CompletedCount(steps);
      AllCompleted(steps)
    }

    function HasFailedStep(): (b: bool)
      reads this
      ensures b <==> exists i :: 0 <= i < |steps| && steps[i].status == StepStatus.Failed
    {
      AnyFailed(steps)
    }

    /** `to_dict()` */
    function ToDict(): (d: Dict)
      reads this
      ensures Get(d, "transaction_id") == Some(Str(transactionId))
      ensures Get(d, "status") == Some(Str(status.Value()))
      ensures Get(d, "current_step_index") == Some(Int(currentStepIndex))
      ensures Get(d, "metadata") == Some(Object(metadata))
      ensures Get(d, "steps") == Some(StepsValue(steps))
    {
      var d := [("transaction_id", Str(transactionId)),
                ("name", Str(name)),
                ("status", Str(status.Value())),
                ("current_step_index", Int(currentStepIndex)),
                ("metadata", Object(metadata)),
                ("created_at", Str(createdAt)),
                ("updated_at", Str(updatedAt)),
                ("steps", StepsValue(steps))];
      GetFirst(d, "transaction_id", 0);
      GetFirst(d, "status", 2);
      GetFirst(d, "current_step_index", 3);
      GetFirst(d, "metadata", 4);
      GetFirst(d, "steps", 7);
      d
    }
  }

  // ----- the Event Management saga -----

  const BaseUrl := "http://localhost:5000"

  /** The participants' URL prefixes, in step order. */
  const ServicePrefixes: seq<string> := ["/api/event", "/api/event-details", "/api/venue", "/api/ticket"]

  /** The step names, in step order. */
  const EventManagementStepNames: seq<string> :=
    ["Event Registration", "Event Details Registration", "Venue Registration", "Ticket Registration"]

  /** The values of `fail_at_step` that flag each step, in step order. */
  const FailureKeys: seq<string> := ["event", "event_details", "venue", "ticket"]

  /** The identifier each step's rollback URL names, in step order. */
  const IdKeys: seq<string> := ["event_id", "details_id", "venue_id", "ticket_id"]

  /** A participant's registration URL. */
  function RegisterUrl(prefix: string): string {
    BaseUrl + prefix + "/register"
  }

  /** A participant's rollback URL with a `{key}` placeholder for the identifier. */
  function RollbackTemplate(prefix: string, idKey: string): string {
    BaseUrl + prefix + "/rollback/{" + idKey + "}"
  }

  /** `event_data.get('fail_at_step') == key` */
  function FailFlag(data: Dict, key: string): Value {
    Bool(Get(data, "fail_at_step") == Some(Str(key)))
  }

  function EventPayload(data: Dict): (p: Dict)
    ensures Get(p, "simulate_failure") == Some(FailFlag(data, "event"))
  {
    var p := [("name", GetOr(data, "name", Str("Sample Event"))),
     ("description", GetOr(data, "description", Str("Sample event description"))),
     ("date", GetOr(data, "date", Str("2024-12-31"))),
     ("simulate_failure", FailFlag(data, "event"))];
    GetFirst(p, "simulate_failure", 3);
    p
  }

  function DetailsPayload(data: Dict): (p: Dict)
    ensures Get(p, "simulate_failure") == Some(FailFlag(data, "event_details"))
  {
    var p := [("detailed_description", GetOr(data, "detailed_description", Str("Detailed description of the event"))),
     ("duration", GetOr(data, "duration", Int(120))),
     ("category", GetOr(data, "category", Str("Entertainment"))),
     ("requirements", GetOr(data, "requirements", List([Str("Tickets required"), Str("Age 18+")]))),
     ("simulate_failure", FailFlag(data, "event_details"))];
    GetFirst(p, "simulate_failure", 4);
    p
  }

  function VenuePayload(data: Dict): (p: Dict)
    ensures Get(p, "simulate_failure") == Some(FailFlag(data, "venue"))
  {
    var p := [("name", GetOr(data, "venue_name", Str("Sample Venue"))),
     ("address", GetOr(data, "venue_address", Str("Tokyo, Japan"))),
     ("capacity", GetOr(data, "venue_capacity", Int(1000))),
     ("facilities", GetOr(data, "venue_facilities", List([Str("Stage"), Str("Sound System")]))),
     ("simulate_failure", FailFlag(data, "venue"))];
    GetFirst(p, "simulate_failure", 4);
    p
  }

  function TicketPayload(data: Dict): (p: Dict)
    ensures Get(p, "simulate_failure") == Some(FailFlag(data, "ticket"))
  {
    var p := [("ticket_type", GetOr(data, "ticket_type", Str("General Admission"))),
     ("price", GetOr(data, "ticket_price", Int(5000))),
     ("quantity", GetOr(data, "ticket_quantity", Int(500))),
     ("simulate_failure", FailFlag(data, "ticket"))];
    GetFirst(p, "simulate_failure", 3);
    p
  }

  /**
   * The four steps of `create_event_management_saga`; `stepIds` stands for
   * the four generated step identifiers. The steps are pending and in the
   * fixed order; step `k` posts to its participant's `register` route and is
   * compensated by a DELETE on the participant's `rollback` route with a
   * placeholder for its own identifier.
   */
  function EventManagementSteps(data: Dict, stepIds: seq<string>, now: string): (steps: seq<SagaStep>)
    requires |stepIds| == 4
    ensures |steps| == 4
    ensures forall k :: 0 <= k < 4 ==>
              && steps[k].name == EventManagementStepNames[k]
              && steps[k].stepId == stepIds[k]
              && steps[k].status == StepStatus.Pending
              && steps[k].result.None?
              && steps[k].httpMethod == "POST"
              && steps[k].url == RegisterUrl(ServicePrefixes[k])
              && steps[k].rollbackMethod == "DELETE"
              && steps[k].rollbackUrl == Some(RollbackTemplate(ServicePrefixes[k], IdKeys[k]))
              && steps[k].payload == StepPayload(data, k)
  {
    seq(4, k requires 0 <= k < 4 =>
      NewStep(stepIds[k], EventManagementStepNames[k], RegisterUrl(ServicePrefixes[k]), now,
              payload := Some(StepPayload(data, k)),
              rollbackUrl := Some(RollbackTemplate(ServicePrefixes[k], IdKeys[k])), rollbackMethod := "DELETE"))
  }

  /** The payload template of step `k`. */
  function StepPayload(data: Dict, k: nat): (p: Dict)
    requires k < 4
    ensures Get(p, "simulate_failure") == Some(FailFlag(data, FailureKeys[k]))
  {
    if k == 0 then EventPayload(data)
    else if k == 1 then DetailsPayload(data)
    else if k == 2 then VenuePayload(data)
    else TicketPayload(data)
  }

  /**
   * Step `k` carries `simulate_failure` true exactly when `fail_at_step`
   * names it, so at most one step is flagged.
   */
  lemma EventManagementFailureFlags(data: Dict, stepIds: seq<string>, now: string)
    requires |stepIds| == 4
    ensures var steps := EventManagementSteps(data, stepIds, now);
      && (forall k :: 0 <= k < 4 ==>
            Get(steps[k].payload, "simulate_failure") == Some(FailFlag(data, FailureKeys[k])))
      && (forall k :: 0 <= k < 4 ==>
            (Truthy(Get(steps[k].payload, "simulate_failure")) <==> Get(data, "fail_at_step") == Some(Str(FailureKeys[k]))))
      && (forall j, k :: 0 <= j < k < 4 ==>
            !(Truthy(Get(steps[j].payload, "simulate_failure")) && Truthy(Get(steps[k].payload, "simulate_failure"))))
  {
    var steps := EventManagementSteps(data, stepIds, now);
    forall k | 0 <= k < 4
      ensures Get(steps[k].payload, "simulate_failure") == Some(FailFlag(data, FailureKeys[k]))
    {
      assert steps[k].payload == StepPayload(data, k);
    }
    forall j, k | 0 <= j < k < 4
      ensures FailureKeys[j] != FailureKeys[k]
    {
    }
  }

  /**
   * `create_event_management_saga(event_data)`: a pending transaction named
   * "Event Management Saga" over the four steps, whose metadata is the
   * caller's data itself.
   */
  method CreateEventManagementSaga(data: Dict, transactionId: string, stepIds: seq<string>, now: string)
    returns (tx: SagaTransaction)
    requires |stepIds| == 4
    ensures fresh(tx)
    ensures tx.transactionId == transactionId && tx.name == "Event Management Saga"
    ensures tx.steps == EventManagementSteps(data, stepIds, now)
    ensures tx.metadata == data
    ensures tx.status == TransactionStatus.Pending && tx.currentStepIndex == 0
  {
    var steps := EventManagementSteps(data, stepIds, now);
    tx := new SagaTransaction(transactionId, "Event Management Saga", steps, Some(data), now);
  }
}
