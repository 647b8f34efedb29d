# Saga orchestration for event management, in Dafny

This project models the saga orchestrator of an event-management demo and
proves properties about it. The demo registers one event across four
participant services:

- the event;
- its details;
- a venue;
- a ticket.

Each service has a `register` endpoint and a compensating `rollback`
endpoint over one shared in-memory database.

The orchestrator (`SagaOrchestrator`) works as follows:

- It runs the steps of a `SagaTransaction` in order.
- Before each step it builds the payload from the step's template, plus the
  `event_id`, `venue_id` and `details_id` of earlier completed steps.
- It stops at the first step that does not answer 200 or 201.
- It then compensates the completed steps, last first. For each one it fills
  the `{x_id}` placeholders of the rollback URL from the step's result and
  sends the step's rollback method (DELETE for every step of the Event
  Management saga).
- It reports `completed`, `compensated`, or `failed`. `failed` means an
  unexpected exception; no further rollback is attempted.

The model is organised by file:

- `json.dfy`: JSON values. A Python dict is an insertion-ordered association
  list; lookup, assignment and `update` are modelled, and so is `str()` for
  values whose strings hold no quotes, backslashes or unprintable characters.
- `strings.dfy`: `endswith`, `startswith` and `str.replace`.
- `http.dfy`: requests, responses, and the reply the orchestrator observes.
  The reply is an answer, a transport error (`RequestException`) or another
  exception. The file also holds the guards the participants share: the
  empty-body check, the first missing required field, and the table lookup of
  a request-supplied id.
- `database.dfy`: the `SharedDatabase` class, with one `map` field per table
  and the record each `create_*` stores. A `uuid4()` id is a key that is
  fresh for its table.
- `saga_models.dfy`: the status enums, the `SagaStep` value, the
  `SagaTransaction` class with its queries and `to_dict`, and the four-step
  Event Management saga builder.
- `event_api.dfy`, `event_details_api.dfy`, `venue_api.dfy`, `ticket_api.dfy`:
  each participant's register and rollback handler. Each is a function from
  the shared tables and the request body to the response and the tables
  afterwards.
- `services.dfy`: the four participants deployed under their URL prefixes.
  This is the router from a request to the handler it reaches. It answers
  Flask's 404 to a path no rule matches, 405 to a method the matched rules
  do not allow, and the automatic OPTIONS answer.
- `saga_execution.dfy`: the specification of a run, as functions of the steps,
  the tables and an abstract participant call `call: (Tables, Request) ->
  (Reply, Tables)`.
  - `AttemptStep` is one step; `Forward` is the forward phase.
  - `RollbackAttempt` is one compensation; `Compensate` is the sweep.
  - `RunSaga` is the whole run.
  - The file also proves what the run guarantees.
- `saga_orchestrator.dfy`: the `SagaOrchestrator` class. Its methods perform
  the run step by step, with loops over the steps and over the completed
  steps, and are proved equal to the specification functions. The class also
  writes the participants' table changes back into the shared database and
  keeps the transaction registry.
- `scenarios.dfy`: the Event Management saga run against the deployed
  participants. It covers a failure injected at the event step and a failure
  injected at the details step. In the second case the event is registered,
  then rolled back, and the store ends exactly as it began.

## Model

| member | source | states |
|---|---|---|
| Orchestrator.SagaOrchestrator.ExecuteSaga | app/saga/saga_orchestrator.py:28-116 | The steps, status, current index, participant tables and returned summary after `execute_saga` are those of `RunSaga`. The transaction is added to `active_transactions`. The registry gains one record under a fresh id, and the final update is addressed to the transaction's own id. |
| Orchestrator.SagaOrchestrator.StartSaga | app/saga/saga_orchestrator.py:32-46 | The transaction becomes active. It is filed in the registry under a fresh id, with its pre-run status, step names and metadata. It is then set in progress, and the participant tables are unchanged. |
| Orchestrator.SagaOrchestrator.RunSteps | app/saga/saga_orchestrator.py:48-116 | After filing, the step loop and its conclusion produce exactly the `RunSaga` outcome. The registry receives the final update (`FinalUpdates`) addressed to the transaction id. |
| Orchestrator.SagaOrchestrator.ExecuteSteps | app/saga/saga_orchestrator.py:50-57 | The step loop performs `Forward` from step 0: same steps, same tables, same stop. `current_step_index` is the stopping step, or `len(steps)-1` when all steps succeed, or unchanged when there are no steps. |
| Orchestrator.SagaOrchestrator.FinishSaga | app/saga/saga_orchestrator.py:57-116 | After the loop, the steps, status, tables, summary and registry update are those `Conclude` gives for how the loop stopped. |
| Orchestrator.SagaOrchestrator.FinishStopped | app/saga/saga_orchestrator.py:57-79 | On a failed step, the status is set to compensating and the completed steps are compensated. The run ends compensated with the failed step's name, or failed if a compensating call raised. |
| Orchestrator.SagaOrchestrator.FinishCompleted | app/saga/saga_orchestrator.py:81-99 | When every step succeeded, the transaction is completed, `updated_at` is refreshed, and the summary reports the number of steps. |
| Orchestrator.SagaOrchestrator.RecordRunCompensated | app/saga/saga_orchestrator.py:64-79 | The status becomes compensated. The registry update carries that status and the steps, and the summary has `success` False, `failed_step` and `rollback_completed` True. |
| Orchestrator.SagaOrchestrator.RecordRunFailure | app/saga/saga_orchestrator.py:101-116 | After an exception the status becomes failed, the registry is sent the message, and the summary is the failure summary. |
| Orchestrator.SagaOrchestrator.RecordFailure | app/saga/saga_orchestrator.py:101-116 | Sets status `failed` and sends the registry `{'status': 'failed', 'error': message}` for the transaction id. Returns the four-field failure summary and leaves the participant tables alone. |
| Orchestrator.SagaOrchestrator.ExecuteStep | app/saga/saga_orchestrator.py:118-157 | The new step, tables and outcome are those of `AttemptStep`. Only step `i` changes. |
| Orchestrator.SagaOrchestrator.PrepareStepPayload | app/saga/saga_orchestrator.py:159-175 | The loop over `get_completed_steps()` returns `PayloadFrom` over the whole step list: the template updated from each completed step's non-empty result, in list order. |
| Orchestrator.SagaOrchestrator.FillRollbackUrl | app/saga/saga_orchestrator.py:197-202 | The loop over `result.items()` returns `FillPlaceholders`: `{key}` is replaced by `str(value)` for each key ending in `_id`, in insertion order. |
| Orchestrator.SagaOrchestrator.ExecuteRollbackStep | app/saga/saga_orchestrator.py:190-218 | Steps, tables and raised exception are those of `RollbackAttempt`. |
| Orchestrator.SagaOrchestrator.ExecuteRollback | app/saga/saga_orchestrator.py:177-188 | The backward loop over the completed steps gives the steps, tables and raised exception of `Compensate` over `CompletedIndices`. |
| Orchestrator.SagaOrchestrator.Send | app/saga/saga_orchestrator.py:129-134 | One participant call: the reply, and the shared tables replaced by the participants' tables afterwards. |
| Orchestrator.SagaOrchestrator.GetTransactionStatus | app/saga/saga_orchestrator.py:220-230 | An id in `active_transactions` gives that transaction's `to_dict()`. Otherwise the registry record is returned, or None. |
| Orchestrator.SagaOrchestrator.constructor | app/saga/saga_orchestrator.py:25-26 | The orchestrator starts with no active transactions. |
| Orchestrator.CreationData | app/saga/saga_orchestrator.py:38-43 | The creation dict binds `id`, `status`, the list of step names, and `metadata`. |
| Orchestrator.FinalUpdates | app/saga/saga_orchestrator.py:66-109 | The final update carries the summary's status. It also carries the steps after success or compensation, or the error message and no steps after an exception. |
| Orchestrator.RegistryKeepsCreatedRecord | app/saga/saga_orchestrator.py:38-106 | The registry record is keyed by a fresh id, not the transaction id, so the final update misses. The record keeps its creation status (`pending` unless given) and nothing is stored under the transaction id. |
| SagaExecution.RunSaga | app/saga/saga_orchestrator.py:28-116 | A run keeps the step count, and its status is the one its summary reports. |
| SagaExecution.Conclude | app/saga/saga_orchestrator.py:57-116 | The index after the run is the stopping step, or `len(steps)-1` (the old index if there are no steps). Without a failed step, steps, tables and log are those of the forward phase. After one, they are the compensation's. |
| SagaExecution.Summary.AsDict | app/saga/saga_orchestrator.py:72-116 | The returned dict has `success` true exactly on success, plus `transaction_id` and `status`. It has `completed_steps` on success and `failed_step` with `rollback_completed` True on compensation; an exception gives exactly four fields. |
| SagaExecution.RunSucceeds | app/saga/saga_orchestrator.py:50-99 | A run succeeds if and only if every step was called and every reply was 200 or 201. It then reports `completed` with `completed_steps = len(steps)` and index `len(steps)-1`. |
| SagaExecution.RunCompletedSteps | app/saga/saga_orchestrator.py:136-142 | After success every step is completed, was called at its own URL with its own method, and holds its reply's body as result. |
| SagaExecution.RunStopped | app/saga/saga_orchestrator.py:55-79 | If step `i` is the first non-success, exactly steps 0..i were called and step `i` got neither a success nor an exception. The run is compensated with `failed_step` = step `i`'s name, or failed with the message when a compensating call raised. |
| SagaExecution.RunStoppedSteps | app/saga/saga_orchestrator.py:143-157 | For fresh steps stopped at `i`: step `i` is failed with an error and no result. Steps after `i` are unchanged (still pending). Exactly the steps before `i` were completed by the forward phase. |
| SagaExecution.RunRollbackOrder | app/saga/saga_orchestrator.py:184-188 | Compensation calls exactly the completed steps before `i` that have a rollback URL and a non-empty result, in strictly decreasing position. It calls all of them unless an exception cuts the sweep. |
| SagaExecution.RunRollbackCalls | app/saga/saga_orchestrator.py:198-218 | The m-th compensating request is the m-th step's rollback method, sent to its filled rollback URL with no body. That step ends compensated on 200/204 and otherwise stays completed. |
| SagaExecution.RunRaised | app/saga/saga_orchestrator.py:101-116 | An exception at step `i` fails the run with its message. No compensating request is sent, step `i` stays in progress, and later steps are untouched. |
| SagaExecution.SweepUntouched | app/saga/saga_orchestrator.py:184-188 | Compensation never changes a step that was not completed. |
| SagaExecution.AttemptStep | app/saga/saga_orchestrator.py:118-157 | The step's own method and URL are called. The JSON body is the step's template prepared from the step list in which step `i` is marked in progress (`SentBody`; `PayloadFromAll` turns this into `_prepare_payload` over `get_completed_steps()`). The outcome is success if and only if the reply is 200/201, and an exception if and only if the call raised. The step becomes completed with the body as result, failed with an error and the old result, or stays in progress. Its definition is kept. |
| SagaExecution.Forward | app/saga/saga_orchestrator.py:50-57 | The forward phase sends one request per step it reaches, stops inside the list, and leaves earlier steps alone. |
| SagaExecution.ForwardCalled | app/saga/saga_orchestrator.py:50-142 | Each step up to the stop was called in order at its own URL and method. Each step before the stop got 200/201 and is completed with that body. |
| SagaExecution.ForwardKept | app/saga/saga_orchestrator.py:50-57 | Steps after the stop are untouched, and every step keeps its name, URLs, methods and template. |
| SagaExecution.ForwardStopped | app/saga/saga_orchestrator.py:143-157 | The stopping step is failed with an error and its result untouched, or in progress after an exception. |
| SagaExecution.ForwardFailed | app/saga/saga_orchestrator.py:143-157 | A step that stopped the run without an exception got a non-success reply and is failed with an error, its result untouched. |
| SagaExecution.ForwardRaised | app/saga/saga_orchestrator.py:101-116 | A step whose call raised is left in progress, and its exchange records the exception. |
| SagaExecution.ForwardSent | app/saga/saga_orchestrator.py:122-134 | Each step up to the stop was sent its template prepared from the list as it stood at that call: earlier steps as the forward phase left them, step `j` in progress, later steps as given. |
| SagaExecution.ForwardBeforeCompleted | app/saga/saga_orchestrator.py:50-57 | Every step before a called step had completed. |
| SagaExecution.ForwardPrepared | app/saga/saga_orchestrator.py:159-175 | For fresh steps, each called step's body is `_prepare_payload` of its template over exactly the steps before it, all completed. |
| SagaExecution.RunSentPayloads | app/saga/saga_orchestrator.py:122-134 | In a whole run of fresh steps, the j-th request carries the j-th template prepared over the completed steps before it. |
| SagaExecution.ListAtCallCompleted | app/saga/saga_models.py:72-74 | With the earlier steps completed and the later ones fresh, `get_completed_steps()` of the list at a call is exactly the earlier steps. |
| SagaModels.CompletedStepsPrefix | app/saga/saga_models.py:72-74 | Completed steps followed by non-completed ones: `get_completed_steps()` is the first part. |
| SagaModels.CompletedStepsNoneAfter | app/saga/saga_models.py:72-74 | Steps that are not completed add nothing to `get_completed_steps()`. |
| SagaModels.CompletedStepsOfCompleted | app/saga/saga_models.py:72-74 | `get_completed_steps()` of an all-completed list is the list. |
| SagaExecution.RollbackAttempt | app/saga/saga_orchestrator.py:190-218 | The request is the method to the filled rollback URL with no body. The step becomes compensated exactly on 200/204. A transport error is swallowed; any other exception is raised. |
| SagaExecution.Compensate | app/saga/saga_orchestrator.py:184-188 | The sweep keeps the number of steps. |
| SagaExecution.RollbackOrder | app/saga/saga_orchestrator.py:184-188 | The order lists only eligible steps (rollback URL and non-empty result) of the plan. |
| SagaExecution.RollbackOrderMembers | app/saga/saga_orchestrator.py:184-188 | The order holds exactly the eligible plan entries, in strictly decreasing position. |
| SagaExecution.CompensateLength | app/saga/saga_orchestrator.py:184-218 | The sweep sends at most one request per eligible step, and one for each unless an exception ends it. The exception's reply is then the last one logged. |
| SagaExecution.CompensateAt | app/saga/saga_orchestrator.py:198-212 | The m-th compensating request belongs to the m-th step of the order, and that step ends compensated exactly on 200/204. |
| SagaExecution.CompensateUntouched | app/saga/saga_orchestrator.py:184-188 | A step the sweep does not call is unchanged. |
| SagaExecution.CompensateAbove | app/saga/saga_orchestrator.py:184-188 | The sweep over `plan[..k]` does not touch steps above its last entry. |
| SagaExecution.PayloadFromCompleted | app/saga/saga_orchestrator.py:163-175 | Preparing from the step list is preparing from `get_completed_steps()`. |
| SagaExecution.PreparedPayloadTemplate | app/saga/saga_orchestrator.py:163-175 | A non-id field, or an id field no completed step supplies, reads as in the template. |
| SagaExecution.PreparedPayloadLastSupplier | app/saga/saga_orchestrator.py:166-173 | An id field reads as in the result of the last completed step that supplies it. |
| SagaExecution.CopyIdsLookup | app/saga/saga_orchestrator.py:168-173 | Only `event_id`, `venue_id` and `details_id` are copied from a result, and only when present. |
| SagaExecution.FillTemplate | app/saga/saga_orchestrator.py:198-202 | Filling `prefix{key}` gives `prefix + str(result[key])` when the result binds `key`, and otherwise leaves the template unchanged. |
| SagaExecution.FillNoPlaceholders | app/saga/saga_orchestrator.py:198-202 | A URL without `{` is unchanged by filling. |
| Strings.ReplaceAbsent | app/saga/saga_orchestrator.py:202 | `str.replace` returns text without the pattern unchanged. |
| Strings.ReplaceLeftmost | app/saga/saga_orchestrator.py:202 | `str.replace` replaces the leftmost occurrence and keeps everything before it. |
| Strings.ReplaceSkipsPrefix | app/saga/saga_orchestrator.py:202 | A prefix without the pattern's first character passes through `str.replace` unchanged. |
| Json.NatToDecimal | app/saga/saga_orchestrator.py:202 | `str()` of a non-negative integer id: decimal digits with no leading zero whose value (`DecimalValue`) is the number. |
| Json.GetPut | app/saga/saga_orchestrator.py:169-173 | Assigning a key makes it read back the new value and leaves other keys alone. |
| Json.KeysPut | app/saga/saga_orchestrator.py:200 | Assignment keeps the dict's key order: an existing key stays in place, a new one goes last. |
| Json.GetUpdate | app/database.py:158 | After `dict.update(u)`, a key reads as in `u` if `u` binds it, and as before otherwise. |
| Http.MissingFieldFirst | app/apis/event_api.py:20-23 | No field is reported missing if and only if all required fields are present. A reported field is the first absent one in the given order. |
| Http.Probe | app/apis/event_details_api.py:25-27 | An id lookup finds a record exactly for a string key of a non-empty record. A list or dict key raises (unhashable). |
| EventApi.RegisterEvent | app/apis/event_api.py:7-39 | Guards apply in order: empty body 400, first missing of name/description/date 400, truthy `simulate_failure` 500. Only 201 creates an event, exactly one, under the fresh id, returning `success` and `event_id`; other codes leave the tables unchanged. |
| EventApi.RollbackEvent | app/apis/event_api.py:41-59 | Returns 200 and removes the event exactly when it exists, otherwise 404 "Event not found". Nothing else changes. |
| EventApi.RegisterThenRollback | app/apis/event_api.py:7-59 | Rolling back an event just registered answers 200 and restores the tables exactly. |
| EventDetailsApi.RegisterEventDetails | app/apis/event_details_api.py:7-44 | Guards apply in order: body, first missing of event_id/detailed_description/duration/category, referenced event (400, or 500 for an unhashable id), then `simulate_failure` 500. On 201 one record holding the passed `event_id` is created, and the response has `details_id` and echoes `event_id`. |
| EventDetailsApi.RollbackEventDetails | app/apis/event_details_api.py:46-64 | Returns 200 and removes the record exactly when it exists, otherwise 404. Nothing else changes. |
| EventDetailsApi.RegisterThenRollback | app/apis/event_details_api.py:7-64 | Rolling back details just registered restores the tables exactly. |
| VenueApi.RegisterVenue | app/apis/venue_api.py:7-38 | Guards apply in order: body, first missing of name/address/capacity, `simulate_failure` 500; there is no cross-reference check. On 201 exactly one venue is created and the response has `venue_id`. |
| VenueApi.RollbackVenue | app/apis/venue_api.py:40-58 | Returns 200 and removes the venue exactly when it exists, otherwise 404. Nothing else changes. |
| VenueApi.RegisterThenRollback | app/apis/venue_api.py:7-58 | Rolling back a venue just registered restores the tables exactly. |
| TicketApi.RegisterTicket | app/apis/ticket_api.py:7-49 | Guards apply in order: body, first missing of the five fields, event then venue existence (400 each, or 500 if unhashable), `simulate_failure` 500. On 201 exactly one ticket is created and the response has `ticket_id`, `event_id` and `venue_id`. |
| TicketApi.TicketCreated | app/apis/ticket_api.py:40-46 | The success body binds `success`, `ticket_id`, `event_id` and `venue_id`. |
| TicketApi.RollbackTicket | app/apis/ticket_api.py:51-69 | Returns 200 and removes the ticket exactly when it exists, otherwise 404. Nothing else changes. |
| TicketApi.RegisterThenRollback | app/apis/ticket_api.py:7-69 | Rolling back a ticket just registered restores the tables exactly. |
| Database.SharedDatabase.constructor | app/database.py:12-18 | All five tables start empty. |
| Database.SharedDatabase.CreateEvent | app/database.py:21-32 | Inserts the event record (status `active`) under an id absent before. No other table changes. |
| Database.SharedDatabase.DeleteEvent | app/database.py:34-39 | Returns true if and only if the id was present. Afterwards the id is absent and everything else is unchanged. |
| Database.SharedDatabase.GetEvent | app/database.py:41-43 | Returns the stored record if and only if the id is present. |
| Database.SharedDatabase.ListEvents | app/database.py:45-47 | Returns one record per stored event, each under a distinct key. |
| Database.SharedDatabase.CreateEventDetails | app/database.py:50-63 | Inserts the details record, holding the separately passed `event_id`, under a fresh id. No other table changes. |
| Database.SharedDatabase.DeleteEventDetails | app/database.py:65-70 | Returns true if and only if the id was present. Afterwards the id is absent and everything else is unchanged. |
| Database.SharedDatabase.GetEventDetails | app/database.py:72-74 | Returns the stored record if and only if the id is present. |
| Database.SharedDatabase.ListEventDetails | app/database.py:76-78 | Returns one record per stored details entry, each under a distinct key. |
| Database.SharedDatabase.CreateVenue | app/database.py:81-93 | Inserts the venue record under a fresh id. No other table changes. |
| Database.SharedDatabase.DeleteVenue | app/database.py:95-100 | Returns true if and only if the id was present. Afterwards the id is absent and everything else is unchanged. |
| Database.SharedDatabase.GetVenue | app/database.py:102-104 | Returns the stored record if and only if the id is present. |
| Database.SharedDatabase.ListVenues | app/database.py:106-108 | Returns one record per stored venue, each under a distinct key. |
| Database.SharedDatabase.CreateTicket | app/database.py:111-124 | Inserts the ticket record under a fresh id. No other table changes. |
| Database.SharedDatabase.DeleteTicket | app/database.py:126-131 | Returns true if and only if the id was present. Afterwards the id is absent and everything else is unchanged. |
| Database.SharedDatabase.GetTicket | app/database.py:133-135 | Returns the stored record if and only if the id is present. |
| Database.SharedDatabase.ListTickets | app/database.py:137-139 | Returns one record per stored ticket, each under a distinct key. |
| Database.SharedDatabase.CreateTransaction | app/database.py:142-153 | Keys the record by a fresh id, not any caller `id`. The participant tables are unchanged. |
| Database.TransactionRecord | app/database.py:145-152 | The record's `id` is the fresh id. `status` defaults to `pending`, `steps` to `[]` and `metadata` to `{}`, and both timestamps are set. |
| Database.SharedDatabase.UpdateTransaction | app/database.py:155-161 | Returns true if and only if the id is present. An absent id changes nothing; otherwise the updates are merged into that record. |
| Database.UpdatedRecordFields | app/database.py:158-159 | After an update, `updated_at` is the new time, an updated key reads as in the updates, and any other key is unchanged. |
| Database.SharedDatabase.GetTransaction | app/database.py:163-165 | Returns the stored record if and only if the id is present. |
| Database.SharedDatabase.ListTransactions | app/database.py:167-169 | Returns one record per transaction, each under a distinct key. |
| Database.SharedDatabase.GetDatabaseStatus | app/database.py:171-180 | Each count is its table's size. `total_records` is the sum of the four entity tables and excludes transactions. |
| Database.RemoveAdded | app/database.py:34-39 | Deleting the key just added restores the table. |
| Database.FreshKey | app/database.py:23 | A generated id is absent from the table it is generated for. |
| SagaModels.ParseStepStatus | app/saga/saga_models.py:7-13 | Each step status has exactly one value string, and parsing it gives that status back. |
| SagaModels.ParseTransactionStatus | app/saga/saga_models.py:15-22 | Each transaction status has exactly one value string, and parsing it gives that status back. |
| SagaModels.NewStep | app/saga/saga_models.py:24-44 | A new step is pending, with no result, no error and no completion time. The method defaults to POST and the rollback method to DELETE. A missing payload becomes `{}`. |
| SagaModels.SagaTransaction.constructor | app/saga/saga_models.py:46-64 | A new transaction is pending at index 0. Missing metadata becomes `{}`. |
| SagaModels.CompletedIndices | app/saga/saga_models.py:72-74 | Lists, in increasing order, exactly the positions of completed steps. |
| SagaModels.SagaTransaction.GetCurrentStep | app/saga/saga_models.py:66-70 | Returns `steps[index]` if and only if `0 <= index < len(steps)`. |
| SagaModels.SagaTransaction.GetCompletedSteps | app/saga/saga_models.py:72-74 | Returns the completed steps in their original order, and only those. |
| SagaModels.CompletedStepsMembers | app/saga/saga_models.py:72-74 | Every returned step is completed, and every completed step is returned. |
| SagaModels.SagaTransaction.IsCompleted | app/saga/saga_models.py:76-78 | True if and only if every step is completed (vacuously true for no steps), which is when all steps are returned as completed. |
| SagaModels.CompletedCount | app/saga/saga_models.py:72-78 | At most all steps are completed, and all are if and only if `is_completed`. |
| SagaModels.SagaTransaction.HasFailedStep | app/saga/saga_models.py:80-82 | True if and only if some step is failed. |
| SagaModels.SagaTransaction.ToDict | app/saga/saga_models.py:84-111 | The dict carries the id, the status value, the index and the metadata. It also has one step dict per step, in order. |
| SagaModels.StepDict | app/saga/saga_models.py:95-108 | A step dict carries the step's id, its status value and its result. |
| SagaModels.StepsValue | app/saga/saga_models.py:94-110 | The step list has one step dict per step, in order. |
| SagaModels.StepNames | app/saga/saga_orchestrator.py:41 | The list of step names, in order. |
| SagaModels.EventPayload | app/saga/saga_models.py:121-126 | `simulate_failure` is `fail_at_step == 'event'`. |
| SagaModels.DetailsPayload | app/saga/saga_models.py:149-155 | `simulate_failure` is `fail_at_step == 'event_details'`. |
| SagaModels.VenuePayload | app/saga/saga_models.py:128-134 | `simulate_failure` is `fail_at_step == 'venue'`. |
| SagaModels.TicketPayload | app/saga/saga_models.py:171-176 | `simulate_failure` is `fail_at_step == 'ticket'`. |
| SagaModels.EventManagementSteps | app/saga/saga_models.py:136-180 | There are exactly four steps in the fixed order and with the fixed names. Each is pending and POSTs to its participant's register URL. Its rollback is a DELETE whose URL has a placeholder for its own id key. |
| SagaModels.EventManagementFailureFlags | app/saga/saga_models.py:121-176 | Step `k`'s `simulate_failure` is truthy if and only if `fail_at_step` names step `k`, so at most one step is flagged. |
| SagaModels.CreateEventManagementSaga | app/saga/saga_models.py:113-187 | Builds a pending transaction named "Event Management Saga" at index 0, over those four steps. Its metadata is the caller's data. |
| Services.MatchPath | main.py:15-18 | A path matches a participant's `/<id>` rule only as that participant's prefix, `/` and one segment without `/`. It matches the rollback rule only as the prefix, `/rollback/` and one such segment. |
| Services.MatchRest | app/apis/event_api.py:41-61 | Under a participant's prefix, `rollback/<id>` matches the rollback rule and any other single segment the `/<id>` rule, of that participant. |
| Services.MatchPathNone | app/apis/event_api.py:7-93 | No rule matches exactly when, for every participant, the path is neither its `/<id>` shape nor its rollback shape. |
| Services.ItemPrefixesDiffer | main.py:15-18 | No path starts with the prefixes of two different participants, so `/api/event/` never captures `/api/event-details/` paths. |
| Services.MatchItem | main.py:15-18 | A path under a participant's prefix is matched against that participant's rules only. |
| Services.MatchRegister | app/apis/event_api.py:7 | A register URL matches only its participant's `/<id>` shape, with segment `register`. |
| Services.MatchRollback | app/apis/event_api.py:41 | A rollback URL matches only its participant's rollback rule, with that id. |
| Services.MatchRecord | app/apis/event_api.py:61 | A one-segment URL that is not a rollback path matches only its participant's `/<id>` rule. |
| Services.ParseRoute | app/apis/event_api.py:7-61 | A request reaches a register handler only as a POST to that participant's register URL. It reaches a rollback handler only as a DELETE to the rollback prefix plus one segment. |
| Services.ParseRefusals | app/apis/event_api.py:7-93 | 404 exactly when the path matches no rule. 405 exactly when it matches a rule but the method is not allowed there. The one-segment rules allow GET, HEAD and OPTIONS, plus POST for `register`; the rollback rule allows DELETE and OPTIONS. |
| Services.ParseWrongMethod | app/apis/event_api.py:7-61 | 405 for a DELETE to a register URL, a POST to a rollback URL, and a POST to any other record URL (the GET rule `/<id>`). |
| Services.ParseRegister | app/apis/event_api.py:7 | Each register URL, under POST, reaches its own participant's register handler. |
| Services.ParseRollback | app/apis/event_api.py:41 | Each rollback URL with an id segment, under DELETE, reaches its own participant's rollback handler with that id. |
| Services.Serve | main.py:14-18 | The deployment answers every request: no exception escapes it. |
| Services.ServeRegister | app/apis/event_api.py:7-36 | A POST to a register URL is answered by that participant's register handler, with the tables it leaves. |
| Services.ServeRollback | app/apis/event_api.py:41-56 | A DELETE to a rollback URL is answered by that participant's rollback handler, with the tables it leaves. |
| Services.ServeUnhandled | app/apis/event_api.py:61-93 | A request that reaches no register or rollback handler leaves the tables unchanged. It gets 404 off every rule, 405 for a disallowed method, and an empty 200 to OPTIONS. The GET routes only read. |
| Scenarios.EventPayloadWellFormed | app/saga/saga_models.py:121-126 | The event step's payload always has name, description and date. |
| Scenarios.DetailsPayloadWellFormed | app/saga/saga_models.py:149-155 | The details payload, with the event's id copied in, has all four required fields. |
| Scenarios.EventAnswer | app/apis/event_api.py:13-36 | The deployed event participant answers the event step with 500 and no change when `fail_at_step` is `event`. Otherwise it answers 201 with the new `event_id`, and the event is stored. |
| Scenarios.DetailsAnswer | app/apis/event_details_api.py:13-31 | The deployed details participant answers the flagged details step, which names an existing event, with 500 and leaves the store unchanged. |
| Scenarios.EventStepRolledBack | app/apis/event_api.py:41-56 | Compensating the event step sends DELETE to the event rollback URL with the event's id. The participant answers 200, the step becomes compensated, and the store is as before the registration. |
| Scenarios.EventStepFails | app/saga/saga_orchestrator.py:118-149 | With `fail_at_step` = `event`, the first step's call answers 500. The step fails and the store is unchanged. |
| Scenarios.EventStepSucceeds | app/saga/saga_orchestrator.py:118-142 | Otherwise the first step completes with the new `event_id` in its result and is eligible for rollback. |
| Scenarios.DetailsStepFails | app/saga/saga_orchestrator.py:118-149 | With `fail_at_step` = `event_details`, after the event step the details call answers 500. The step fails and the store is unchanged. |
| Scenarios.FailAtEvent | app/saga/saga_orchestrator.py:55-79 | With `fail_at_step` = `event`, one request is sent and the run ends compensated with `failed_step` "Event Registration". Nothing is rolled back, the store is unchanged, and steps 2-4 stay pending. |
| Scenarios.FailAtEventDetails | test_demo.py:160-177 | With `fail_at_step` = `event_details`, the run ends compensated (`success` False, `rollback_completed` True) with `failed_step` "Event Details Registration". Three requests are sent, the last a DELETE of the created event, and the store ends as it began. |

## Left out

- HTTP transport: `requests.request`, timeouts, and `response.json()` / `.text` are not modelled. A participant call is the abstract function `call`, whose reply is a JSON object body, a transport error, or another exception.
- Flask plumbing: blueprints, `jsonify`, `request.get_json`, response headers and CORS are left out.
- The saga blueprint's four routes (app/saga/saga_orchestrator.py:235-293) are left out; the route layer and its 500 answers to exceptions are not modelled. Each route wraps modelled members:
  - `/execute` answers 400 to an empty body. Otherwise it builds the saga with `create_event_management_saga` (`SagaModels.CreateEventManagementSaga`) and runs `execute_saga` (`ExecuteSaga`). It answers 200 when the result's `success` is true, else 400.
  - `/status/<transaction_id>` answers `get_transaction_status` (`GetTransactionStatus`) with 200, or 404 when it gives None.
  - `/list` answers `db.list_transactions()` (`Database.SharedDatabase.ListTransactions`).
  - `/health` reports `len(orchestrator.active_transactions)`, the size of the `activeTransactions` field.
- Services.Serve: the answers of the participants' GET routes (`/<id>`, `/list`, `/health`, for example app/apis/event_api.py:61-93) are not modelled. Such requests are routed to them, and the model states only that they leave the tables unchanged; the orchestrator never calls them. The saga, demo and `/` routes (main.py:19-25) are not part of this model, so `Serve` answers 404 where Flask would reach those handlers. Flask's OPTIONS answer is modelled as an empty 200, without its `Allow` header.
- SagaModels.SagaStep: steps are values. In Python a `SagaStep` object is updated in place, so an object listed twice in a transaction's `steps` would share its status and result between both positions. The model's positions are independent. `create_event_management_saga` builds four distinct objects, so its runs are unaffected.
- `threading.Lock` (app/database.py:13): the model is single-threaded.
- `uuid.uuid4()` is replaced by a fresh-id choice (`:|` in the database methods, `FreshKey` in the deployed scenarios). Step and transaction ids are parameters.
- `datetime.now()` is one `now` string per call, so timestamps within one call coincide.
- Logging calls.
- app/demo/demo_endpoints.py, main.py's app wiring (beyond the URL prefixes), test_demo.py and the global `db` and `orchestrator` singletons. The singletons are passed explicitly.
- Floating-point values in JSON bodies: `Json.Value` has no floats.
- An exception inside a participant handler is modelled only for its reachable case, a list or dict id used as a table key. No other handler operation can raise on the modelled values.
- Database.SharedDatabase.ListEvents: the insertion order of `list(self.events.values())` is not modelled. The result is the stored records in some order, one per key.
- Database.SharedDatabase.ListEventDetails: the insertion order of `list(self.event_details.values())` is not modelled. The result is the stored records in some order, one per key.
- Database.SharedDatabase.ListVenues: the insertion order of `list(self.venues.values())` is not modelled. The result is the stored records in some order, one per key.
- Database.SharedDatabase.ListTickets: the insertion order of `list(self.tickets.values())` is not modelled. The result is the stored records in some order, one per key.
- Database.SharedDatabase.ListTransactions: the insertion order of `list(self.transactions.values())` is not modelled. The result is the stored records in some order, one per key.
- Json.Render: `repr()` of a string inside a list or dict is modelled as the text between single quotes (`Json.QuoteString`). Python switches to double quotes when the text holds `'` and no `"`, and escapes backslashes, newlines and unprintable characters. A rollback URL filled from such a value (`FillPlaceholders`) therefore differs from the Python one.
- SagaExecution.AttemptStep: the error string `f"HTTP {status}: {response.text}"` is modelled as the status code alone (`StepError.HttpStatus`), because response text is not modelled.
- Orchestrator.SagaOrchestrator.ExecuteRollback: the unused `failed_step_index` parameter of `_execute_rollback` is dropped.
- Orchestrator.SagaOrchestrator.ExecuteSaga: the transaction status is set to `compensating` during the sweep and then overwritten. The ensures gives only the final status.
