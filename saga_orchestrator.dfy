/**
 * The orchestrator object: it keeps the transactions it has run, drives
 * their steps against the participants, compensates on failure, records
 * each run in the shared database's transaction registry, and answers
 * status queries. Each method is proved to perform what the functions of
 * `SagaExecution` specify.
 */
module Orchestrator {
  import opened Json
  import opened Strings
  import opened Http
  import opened Database
  import opened SagaModels
  import opened SagaExecution

  /** The registry fields `execute_saga` stores before the run starts. */
  function CreationData(txId: string, status: TransactionStatus, steps: seq<SagaStep>, metadata: Dict): (d: Dict)
    ensures Get(d, "id") == Some(Str(txId))
    ensures Get(d, "status") == Some(Str(status.Value()))
    ensures Get(d, "steps") == Some(StepNames(steps))
    ensures Get(d, "metadata") == Some(Object(metadata))
  {
    var d := [("id", Str(txId)), ("status", Str(status.Value())),
              ("steps", StepNames(steps)), ("metadata", Object(metadata))];
    GetFirst(d, "id", 0);
    GetFirst(d, "status", 1);
    GetFirst(d, "steps", 2);
    GetFirst(d, "metadata", 3);
    d
  }

  /**
   * The registry update a finished run sends: the final status and the
   * steps, or, after an exception, status 'failed' and the message.
   */
  function FinalUpdates(run: SagaRun): (u: Dict)
    ensures Get(u, "status") == Some(Str(run.summary.Status().Value()))
    ensures run.summary.Faulted? ==> Get(u, "error") == Some(Str(run.summary.error)) && !HasKey(u, "steps")
    ensures !run.summary.Faulted? ==> Get(u, "steps") == Some(StepsValue(run.steps)) && !HasKey(u, "error")
  {
    var u := if run.summary.Faulted? then [("status", Str("failed")), ("error", Str(run.summary.error))]
             else [("status", Str(run.summary.Status().Value())), ("steps", StepsValue(run.steps))];
    GetFirst(u, "status", 0);
    GetFirst(u, u[1].0, 1);
    GetAbsent(u, if run.summary.Faulted? then "steps" else "error");
    u
  }

  /**
   * The registry after a run: the record created under `recordId`, then
   * the final update addressed to the transaction's own id, which changes a
   * record only if one is stored under that id.
   */
  function RegistryAfter(before: Table, recordId: string, creation: Dict, txId: string, updates: Dict, now: string): Table {
    Updated(before[recordId := TransactionRecord(recordId, creation, now)], txId, updates, now)
  }

  /**
   * The record is filed under a freshly generated id, not the transaction's
   * id, so the final update finds nothing to change: the record keeps the
   * status it was created with, and the registry has nothing under the
   * transaction's id.
   */
  lemma RegistryKeepsCreatedRecord(before: Table, recordId: string, creation: Dict, txId: string, updates: Dict, now: string)
    requires recordId !in before && txId !in before && recordId != txId
    ensures var after := RegistryAfter(before, recordId, creation, txId, updates, now);
      && after == before[recordId := TransactionRecord(recordId, creation, now)]
      && txId !in after
      && Get(after[recordId], "status") == Some(GetOr(creation, "status", Str("pending")))
  {
  }

  class SagaOrchestrator {
    /** `active_transactions`: every transaction this orchestrator has run, by its id. */
    var activeTransactions: map<string, SagaTransaction>
    /** The shared database: the participants' tables and the transaction registry. */
    const db: SharedDatabase

    constructor (db: SharedDatabase)
      ensures this.db == db && activeTransactions == map[]
    {
      this.db := db;
      activeTransactions := map[];
    }

    /** One call to a participant: its reply, with the shared tables updated in place. */
    method Send(call: Call, req: Request) returns (reply: Reply)
      modifies db`events, db`eventDetails, db`venues, db`tickets
      ensures (reply, db.Entities()) == call(old(db.Entities()), req)
    {
      var out := call(db.Entities(), req);
      reply := out.0;
      db.events, db.eventDetails, db.venues, db.tickets := out.1.events, out.1.eventDetails, out.1.venues, out.1.tickets;
    }

    /**
     * `_prepare_step_payload`: a copy of the template, updated with the
     * identifiers of each completed step's non-empty result in list order.
     */
    method PrepareStepPayload(template: Dict, tx: SagaTransaction) returns (payload: Dict)
      ensures payload == PayloadFrom(template, tx.steps, |tx.steps|)
    {
      payload := template;
      var completed := tx.GetCompletedSteps();
      var k := 0;
      while k < |completed|
        invariant k <= |completed|
        invariant payload == PreparedPayload(template, completed[..k])
      {
        var s := completed[k];
        ghost var before := payload;
        if HasResult(s) {
          var result := s.result.value;
          payload := CopyId(payload, result, "event_id");
          payload := CopyId(payload, result, "venue_id");
          payload := CopyId(payload, result, "details_id");
          assert payload == CopyIds(before, result);
        }
        PreparedPayloadPrefix(template, completed, k);
        k := k + 1;
      }
      assert completed[..k] == completed;
      PayloadFromAll(template, tx.steps);
    }

    /** The rollback URL with `{key}` replaced by the value's text, for each result key ending in `_id`. */
    method FillRollbackUrl(template: string, result: Dict) returns (url: string)
      ensures url == FillPlaceholders(template, result)
    {
      url := template;
      var k := 0;
      while k < |result|
        invariant k <= |result|
        invariant FillPlaceholders(url, result[k..]) == FillPlaceholders(template, result)
      {
        var (key, value) := result[k];
        assert result[k..][0] == (key, value) && result[k..][1..] == result[k + 1..];
        if EndsWith(key, "_id") {
          url := Replace(url, "{" + key + "}", Render(value));
        }
        k := k + 1;
      }
    }

    /**
     * `_execute_step` on step `i`: it marks the step in progress, sends the
     * prepared payload and records the outcome. `Raised` stands for the
     * exception the method lets through, with the step left in progress.
     */
    method ExecuteStep(tx: SagaTransaction, i: nat, call: Call, now: string) returns (outcome: StepOutcome)
      requires i < |tx.steps|
      modifies tx`steps, db`events, db`eventDetails, db`venues, db`tickets
      ensures var a := AttemptStep(old(tx.steps), i, call, old(db.Entities()), now);
        && outcome == a.outcome && tx.steps == old(tx.steps)[i := a.step] && db.Entities() == a.world
    {
      var marked := tx.steps[i].(status := StepStatus.InProgress);
      tx.steps := tx.steps[i := marked];
      var payload := PrepareStepPayload(marked.payload, tx);
      var reply := Send(call, Request(marked.httpMethod, marked.url, Some(payload)));
      if reply.Unexpected? {
        outcome := Raised(reply.reason);
      } else if ForwardSucceeded(reply) {
        tx.steps := tx.steps[i := marked.(status := StepStatus.Completed, result := Some(reply.response.body),
                                          completedAt := Some(now))];
        outcome := Done;
      } else if reply.Answered? {
        tx.steps := tx.steps[i := marked.(status := StepStatus.Failed, error := Some(HttpStatus(reply.response.status)),
                                          completedAt := Some(now))];
        outcome := Stopped;
      } else {
        tx.steps := tx.steps[i := marked.(status := StepStatus.Failed, error := Some(RequestFailed(reply.reason)),
                                          completedAt := Some(now))];
        outcome := Stopped;
      }
    }

    /**
     * `_execute_rollback_step` on step `i`: the compensating call; the step
     * is marked compensated on 200 or 204. A transport failure is swallowed,
     * any other exception is let through (`raised`).
     */
    method ExecuteRollbackStep(tx: SagaTransaction, i: nat, call: Call) returns (raised: Option<string>)
      requires i < |tx.steps| && RollbackEligible(tx.steps[i])
      modifies tx`steps, db`events, db`eventDetails, db`venues, db`tickets
      ensures var r := RollbackAttempt(old(tx.steps), i, call, old(db.Entities()));
        && raised == r.raised && tx.steps == r.steps && db.Entities() == r.world
    {
      var s := tx.steps[i];
      var url := s.rollbackUrl.value;
      if HasResult(s) {
        url := FillRollbackUrl(url, s.result.value);
      }
      var reply := Send(call, Request(s.rollbackMethod, url, None));
      raised := if reply.Unexpected? then Some(reply.reason) else None;
      if RollbackSucceeded(reply) {
        tx.steps := tx.steps[i := s.(status := StepStatus.Compensated)];
      }
    }

    /**
     * `_execute_rollback`: the completed steps, last first, each compensated
     * if it has a rollback URL and a non-empty result. An exception from a
     * compensating call ends the sweep and is let through (`raised`).
     */
    method ExecuteRollback(tx: SagaTransaction, call: Call) returns (raised: Option<string>)
      modifies tx`steps, db`events, db`eventDetails, db`venues, db`tickets
      ensures var plan := CompletedIndices(old(tx.steps));
        var c := Compensate(old(tx.steps), plan, |plan|, call, old(db.Entities()));
        && raised == c.raised && tx.steps == c.steps && db.Entities() == c.world
    {
      ghost var s0, w0 := tx.steps, db.Entities();
      var plan := CompletedIndices(tx.steps);
      ghost var goal := Compensate(s0, plan, |plan|, call, w0).(log := []);
      var k: nat := |plan|;
      while k > 0
        invariant k <= |plan| && |tx.steps| == |s0| && ValidPlan(plan, |tx.steps|)
        invariant Compensate(tx.steps, plan, k, call, db.Entities()).(log := []) == goal
      {
        ghost var pre, wpre := tx.steps, db.Entities();
        var i := plan[k - 1];
        if RollbackEligible(tx.steps[i]) {
          var r := ExecuteRollbackStep(tx, i, call);
          if r.Some? {
            CompensateRaises(pre, plan, k, call, wpre);
            raised := r;
            return;
          }
          CompensateGoesOn(pre, plan, k, call, wpre);
          assert Compensate(tx.steps, plan, k - 1, call, db.Entities()).(log := []) == goal;
        } else {
          CompensateSkip(pre, plan, k, call, wpre);
          assert Compensate(tx.steps, plan, k - 1, call, db.Entities()).(log := []) == goal;
        }
        k := k - 1;
      }
      raised := None;
    }

    /**
     * The `except` branch of `execute_saga`: the transaction fails, the
     * registry is asked to record the message, and the failure summary is
     * returned.
     */
    method RecordFailure(tx: SagaTransaction, reason: string, now: string) returns (result: Dict)
      modifies tx`status, db
      ensures tx.status == TransactionStatus.Failed
      ensures result == Faulted(tx.transactionId, reason).AsDict()
      ensures db.Entities() == old(db.Entities())
      ensures db.transactions ==
                Updated(old(db.transactions), tx.transactionId, [("status", Str("failed")), ("error", Str(reason))], now)
    {
      tx.status := TransactionStatus.Failed;
      var _ := db.UpdateTransaction(tx.transactionId, [("status", Str(tx.status.Value())), ("error", Str(reason))], now);
      result := Faulted(tx.transactionId, reason).AsDict();
    }

    /**
     * The step loop of `execute_saga`: each step in turn becomes the current
     * one and is executed, until one does not succeed.
     */
    method ExecuteSteps(tx: SagaTransaction, call: Call, now: string) returns (stop: Stop)
      modifies tx`steps, tx`currentStepIndex, db`events, db`eventDetails, db`venues, db`tickets
      ensures var f := Forward(old(tx.steps), 0, call, old(db.Entities()), now);
        && stop == f.stop && tx.steps == f.steps && db.Entities() == f.world
      ensures tx.currentStepIndex ==
                if !stop.AllDone? then stop.index
                else if |tx.steps| == 0 then old(tx.currentStepIndex)
                else |tx.steps| - 1
    {
      ghost var f := Forward(tx.steps, 0, call, db.Entities(), now);
      var i := 0;
      while i < |tx.steps|
        invariant i <= |tx.steps| == |old(tx.steps)|
        invariant Forward(tx.steps, i, call, db.Entities(), now).(log := []) == f.(log := [])
        invariant tx.currentStepIndex == if i == 0 then old(tx.currentStepIndex) else i - 1
      {
        ghost var steps, w := tx.steps, db.Entities();
        ghost var a := ForwardAdvance(steps, i, call, w, now);
        tx.currentStepIndex := i;
        var outcome := ExecuteStep(tx, i, call, now);
        assert outcome == a.outcome && tx.steps == steps[i := a.step] && db.Entities() == a.world;
        if outcome != Done {
          return if outcome == Stopped then StoppedAt(i) else RaisedAt(i, outcome.reason);
        }
        i := i + 1;
      }
      return AllDone;
    }

    /**
     * `execute_saga`: the transaction is made active and filed in the
     * registry, then its steps run in order; at the first step that fails,
     * the completed steps are compensated. Steps, status, index, tables and
     * the returned summary are those of the run `RunSaga` specifies. The
     * registry record is filed under a fresh id (`recordId`) while the final
     * update is addressed to the transaction's own id.
     */
    method ExecuteSaga(tx: SagaTransaction, call: Call, now: string) returns (result: Dict, ghost recordId: string)
      modifies this`activeTransactions, tx`steps, tx`status, tx`currentStepIndex, tx`updatedAt, db
      ensures var run := RunSaga(tx.transactionId, old(tx.steps), old(tx.currentStepIndex), call, old(db.Entities()), now);
        && tx.steps == run.steps && tx.status == run.status && tx.currentStepIndex == run.index
        && db.Entities() == run.world && result == run.summary.AsDict()
        && db.transactions == RegistryAfter(old(db.transactions), recordId,
                                            CreationData(tx.transactionId, old(tx.status), old(tx.steps), old(tx.metadata)),
                                            tx.transactionId, FinalUpdates(run), now)
      ensures recordId !in old(db.transactions)
      ensures tx.updatedAt == now
      ensures activeTransactions == old(activeTransactions)[tx.transactionId := tx]
    {
      recordId := StartSaga(tx, now);
      result := RunSteps(tx, call, now);
    }

    /**
     * The body of `execute_saga` once the transaction is filed: the step
     * loop, then the compensation or completion and the final registry
     * update.
     */
    method RunSteps(tx: SagaTransaction, call: Call, now: string) returns (result: Dict)
      requires tx.updatedAt == now
      modifies tx`steps, tx`status, tx`currentStepIndex, tx`updatedAt, db
      ensures var run := RunSaga(tx.transactionId, old(tx.steps), old(tx.currentStepIndex), call, old(db.Entities()), now);
        && tx.steps == run.steps && tx.status == run.status && tx.currentStepIndex == run.index
        && db.Entities() == run.world && result == run.summary.AsDict()
        && db.transactions == Updated(old(db.transactions), tx.transactionId, FinalUpdates(run), now)
      ensures tx.updatedAt == now
    {
      ghost var s0, w0, idx0 := tx.steps, db.Entities(), tx.currentStepIndex;
      var stop := ExecuteSteps(tx, call, now);
      ghost var f := Forward(s0, 0, call, w0, now);
      ghost var run := Conclude(tx.transactionId, f, idx0, call);
      assert RunSaga(tx.transactionId, s0, idx0, call, w0, now) == run;
      result := FinishSaga(tx, stop, call, now, f, idx0, run);
    }

    /**
     * The start of `execute_saga`: the transaction becomes active, is filed
     * in the registry under a fresh id with its status before the run, and
     * is put in progress.
     */
    method StartSaga(tx: SagaTransaction, now: string) returns (ghost recordId: string)
      modifies this`activeTransactions, tx`status, tx`updatedAt, db
      ensures activeTransactions == old(activeTransactions)[tx.transactionId := tx]
      ensures recordId !in old(db.transactions)
      ensures db.transactions == old(db.transactions)[recordId :=
                TransactionRecord(recordId, CreationData(tx.transactionId, old(tx.status), tx.steps, tx.metadata), now)]
      ensures db.Entities() == old(db.Entities())
      ensures tx.status == TransactionStatus.InProgress && tx.updatedAt == now
    {
      activeTransactions := activeTransactions[tx.transactionId := tx];
      recordId := db.CreateTransaction(CreationData(tx.transactionId, tx.status, tx.steps, tx.metadata), now);
      tx.status := TransactionStatus.InProgress;
      tx.updatedAt := now;
    }

    /**
     * The part of `execute_saga` after the step loop, given the forward
     * phase `f` that led to `stop` and the index before the run: the final
     * status, the compensation when a step failed, the registry update and
     * the summary.
     */
    method FinishSaga(tx: SagaTransaction, stop: Stop, call: Call, now: string, ghost f: ForwardRun, ghost index: int,
                      ghost run: SagaRun)
      returns (result: Dict)
      requires f.stop == stop && f.steps == tx.steps && f.world == db.Entities()
      requires !stop.AllDone? ==> stop.index < |tx.steps|
      requires run == Conclude(tx.transactionId, f, index, call)
      requires tx.currentStepIndex == run.index
      modifies tx`steps, tx`status, tx`updatedAt, db
      ensures tx.steps == run.steps && tx.status == run.status
      ensures db.Entities() == run.world && result == run.summary.AsDict()
      ensures db.transactions == Updated(old(db.transactions), tx.transactionId, FinalUpdates(run), now)
      ensures tx.updatedAt == if stop.AllDone? then now else old(tx.updatedAt)
    {
      match stop {
        case RaisedAt(i, reason) =>
          result := RecordRunFailure(tx, reason, now, run);
        case StoppedAt(i) =>
          result := FinishStopped(tx, i, call, now, f, index, run);
        case AllDone =>
          result := FinishCompleted(tx, call, now, f, index, run);
      }
    }

    /** The run failed with `reason`: the transaction is failed and the registry told why. */
    method RecordRunFailure(tx: SagaTransaction, reason: string, now: string, ghost run: SagaRun) returns (result: Dict)
      requires run.summary == Faulted(tx.transactionId, reason) && run.status == TransactionStatus.Failed
      requires run.world == db.Entities()
      modifies tx`status, db
      ensures tx.status == run.status && db.Entities() == run.world && result == run.summary.AsDict()
      ensures db.transactions == Updated(old(db.transactions), tx.transactionId, FinalUpdates(run), now)
    {
      result := RecordFailure(tx, reason, now);
    }

    /** The run was compensated: the transaction and its registry record say so. */
    method RecordRunCompensated(tx: SagaTransaction, stepName: string, now: string, ghost run: SagaRun)
      returns (result: Dict)
      requires run.summary == RolledBack(tx.transactionId, stepName) && run.status == TransactionStatus.Compensated
      requires run.world == db.Entities() && run.steps == tx.steps
      modifies tx`status, db
      ensures tx.status == run.status && db.Entities() == run.world && result == run.summary.AsDict()
      ensures db.transactions == Updated(old(db.transactions), tx.transactionId, FinalUpdates(run), now)
    {
      tx.status := TransactionStatus.Compensated;
      var _ := db.UpdateTransaction(tx.transactionId, [("status", Str(tx.status.Value())), ("steps", StepsValue(tx.steps))], now);
      result := RolledBack(tx.transactionId, stepName).AsDict();
    }

    /** A step failed: the completed steps are compensated and the outcome recorded. */
    method FinishStopped(tx: SagaTransaction, i: nat, call: Call, now: string, ghost f: ForwardRun, ghost index: int,
                         ghost run: SagaRun)
      returns (result: Dict)
      requires f.stop == StoppedAt(i) && f.steps == tx.steps && f.world == db.Entities() && i < |tx.steps|
      requires run == Conclude(tx.transactionId, f, index, call)
      modifies tx`steps, tx`status, db
      ensures tx.steps == run.steps && tx.status == run.status
      ensures db.Entities() == run.world && result == run.summary.AsDict()
      ensures db.transactions == Updated(old(db.transactions), tx.transactionId, FinalUpdates(run), now)
    {
      var stepName := tx.steps[i].name;
      tx.status := TransactionStatus.Compensating;
      var raised := ExecuteRollback(tx, call);
      ghost var c := Sweep(f, call);
      assert raised == c.raised && tx.steps == c.steps && db.Entities() == c.world;
      if raised.Some? {
        result := RecordRunFailure(tx, raised.value, now, run);
      } else {
        result := RecordRunCompensated(tx, stepName, now, run);
      }
    }

    /** Every step succeeded: the transaction is completed and the outcome recorded. */
    method FinishCompleted(tx: SagaTransaction, ghost call: Call, now: string, ghost f: ForwardRun, ghost index: int,
                           ghost run: SagaRun)
      returns (result: Dict)
      requires f.stop == AllDone && f.steps == tx.steps && f.world == db.Entities()
      modifies tx`status, tx`updatedAt, db
      requires run == Conclude(tx.transactionId, f, index, call)
      ensures tx.status == run.status && db.Entities() == run.world && result == run.summary.AsDict()
      ensures db.transactions == Updated(old(db.transactions), tx.transactionId, FinalUpdates(run), now)
      ensures tx.updatedAt == now
    {
      tx.status := TransactionStatus.Completed;
      tx.updatedAt := now;
      var _ := db.UpdateTransaction(tx.transactionId, [("status", Str(tx.status.Value())), ("steps", StepsValue(tx.steps))], now);
      result := Succeeded(tx.transactionId, |tx.steps|).AsDict();
    }

    /**
     * `get_transaction_status`: the active transaction's dict when the id
     * was run here, otherwise the registry record, if any.
     */
    method GetTransactionStatus(id: string) returns (r: Option<Dict>)
      ensures id in activeTransactions ==> r == Some(activeTransactions[id].ToDict())
      ensures id !in activeTransactions ==> r == db.GetTransaction(id)
    {
      if id in activeTransactions {
        var tx := activeTransactions[id];
        return Some(tx.ToDict());
      }
      r := db.GetTransaction(id);
    }
  }
}
