# Jiejian: verified models of its protocols

Jiejian checks the permissions of an application under supervision of a local user: agents propose actions,
the user approves them, and frozen requests are executed and compared with declared permissions. This project
models the parts of it that carry its guarantees, in Dafny, and proves what they promise over every input and
every run.

- **Collaboration tasks** (`task_rules`, `task_store`, `task_protocol`, `task_safety`, `task_receipts`,
  `task_goals`, `task_reservations`, `task_states`, `agent_execution`). The store is a class whose
  transactions are proved against the rules of a task. The protocol interleaves them with business calls
  that return at any time, controls, post-commit cancellations, reconciliations, crashes and recovery; its
  invariant holds in every reachable world. The store records a result whatever the operation's state has
  become and lets a RUNNING operation be reconciled, so some promises hold only while no reconciliation
  overtakes an outstanding call. The history of a world keeps the operations that were overtaken.
  `TaskSafety` proves the promises for the other runs, gives a run that breaks each of them, and says
  exactly by which step a completed task is left and a second operation becomes unsettled; `TaskReceipts`
  says exactly when a settled cancellation lacks the receipt of an operation that did succeed. The
  supervisor of an agent logs what it does with the number of each look at its environment, and the theorems
  about its trace are about what the environment shows at those looks.
- **Tool schemas** (`json_schema`, `schema_*`, `tool_schemas`). A denotational meaning of JSON Schema draft
  2020-12 (Core sections 8.2.3.1, 10.2.1, 10.2.2 and 10.3, Validation section 6.1) with cyclic references,
  the projection, exactly when it exists, and the preservation of meaning: no valid value is refused when
  the branches of unions are told apart, and on the core keywords the verdicts are the same. The theorems
  hold for every budget of visits; the program's is 4096. References are paths; a percent-encoded one, which
  the projection reads without decoding, and one below a subschema with its own `$id` are assumed away.
- **The stdio relay** (`relay_trace`, `relay_lines`, `relay`). The loop runs against a server that may
  answer anything. Its trace holds the profile and credential found at each line and each post with its
  response; a watcher works out from these alone when a generation changes, a session expires or is rebuilt,
  and which tools are defined, and the rules and theorems are stated about that. `relay_lines` says what a
  line has to bring about for any watcher and any responses, the loop is proved to bring about just that,
  and the theorems about replies follow from it.
- **Relationships, conditions, workflows, scenarios, execution requests** (`reachability`, `relationships`,
  `relationship_meaning`, `conditions`, `dependencies`, `workflow`, `subsequences`, `scenarios`,
  `scenario_cases`, `scenario_meaning`, `order`, `sorting`, `execution_request`, `request_meaning`,
  `canonical_request`, `request_codec`). The modules named after a meaning say what the checks decide in
  terms of the fields they are about.
- **Access control, manifest, launcher** (`access_rules`, `access_controller`, `utf8`, `runtime_manifest`,
  `launcher_lines`). `collections` holds what all of them share.

Digests are injective functions, fresh identifiers are parameters that have not been used before, and calls
into the network, the file system and business capabilities are arbitrary answers.

Where the code is weaker than its description, the code is followed:

- `permission_conditions_overlap` reads an absent condition as an authenticated principal, the matcher reads it as
  no condition at all; `Conditions.OverlapSoundExactly` says exactly where the two differ.
- A completed task is described as finished, but a failure recorded late for an overtaken operation blocks it
  again; `TaskSafety.CompletedLeftExactly` says exactly when.
- A settled cancellation is meant to have handed over the receipt of everything that succeeded;
  `TaskReceipts.ReceiptMissedExactly` says exactly when it has not.
- The relay is meant to answer each request as long as its input lasts. It dies without a reply of a request whose
  `_meta` is not an object, of one that waits for a repeated initialization whose response or result is not an
  object, of a checked call with parameters that are not an object, and of an initialization whose result is not an
  object; of a list of tools with such a result it dies after passing it on. `RelayLines.CrashesExactly` and
  `RelayLines.RequestAnsweredExactly` say exactly when, and `RelayLines.RelayCanBreak` gives a run.
- In the relay a request with an id is answered from the body of the response whatever its status code is, other
  than 401, 403 and 404 with a session.

## Model

| member | source | states |
|---|---|---|
| TaskStore.Store.Create | product/backend/application/agent_access/tasks.py:59-80 | a task id stands for one request: it is created once within the growth limit, known again under the same request, and rejected under another |
| TaskStore.Store.HasUnsettledWrite | product/backend/application/agent_access/tasks.py:220-271 | true exactly when some operation of the project is RUNNING or UNKNOWN |
| TaskStore.Store.Act | product/backend/application/agent_access/tasks.py:205-271 | the reservation transaction: refused, already known, registered for review or started, and the stored task afterwards |
| TaskStore.Store.Settle | product/backend/application/agent_access/tasks.py:375-393 | the settle transaction overwrites the operation state whatever it is; it asks for a cleanup exactly when a success reaches a cancelled task |
| TaskStore.Store.Decline | product/backend/application/agent_access/tasks.py:273-281 | only a waiting operation is declined |
| TaskStore.Store.Control | product/backend/application/agent_access/tasks.py:324-373 | finish, resume, pause and cancel, their refusals, and the stored task afterwards |
| TaskStore.Store.ExecutionStarted | product/backend/application/agent_access/tasks.py:143-149 | a new execution is recorded unless the task is stopped |
| TaskStore.Store.ExecutionProgress | product/backend/application/agent_access/tasks.py:151-160 | progress of an execution that is not current changes nothing |
| TaskStore.Store.Ask | product/backend/application/agent_access/tasks.py:296-310 | a question is stored once, under the size limits, and makes the task wait for the user; its id is known again with the same text and rejected with another |
| TaskStore.Store.Answer | product/backend/application/agent_access/tasks.py:312-322 | an answer is stored and the task moves to where its facts put it |
| TaskStore.Store.Followup | product/backend/application/agent_access/tasks.py:114-141 | a follow-up replaces the goal once and drops the published outcome; its id is known again with the same content and rejected with another |
| TaskStore.Store.Publish | product/backend/application/agent_access/tasks.py:423-437 | an outcome is published only for the goal it was assessed against |
| TaskStore.Store.ClaimTurn | product/backend/application/agent_access/tasks.py:162-173 | a turn is claimed only while the task is not stopped and the execution is current; the task is not stopped afterwards either |
| TaskStore.Store.RecoverExecutions | product/backend/application/agent_access/tasks.py:175-184 | a restart turns running and waiting executions of unfinished tasks into UNKNOWN and blocks those tasks |
| TaskProtocol.StepKeeps | product/backend/application/agent_access/tasks.py:205-404 | every event of the protocol (reserve, accept, refuse, return, settle, reconcile, control, post-commit cancellation, turn claim, progress, crash and recovery) keeps the invariant |
| TaskProtocol.ReachableWorlds | product/backend/application/agent_access/tasks.py:205-404 | the invariant holds after every run from the empty store |
| TaskSafety.AtMostOneInvocation | product/backend/application/agent_access/tasks.py:220-271 | over every interleaving the business call of an operation is made at most once, and made exactly for operations neither waiting nor declined |
| TaskSafety.NoCallWithoutApproval | product/backend/application/agent_access/tasks.py:220-281 | a capability that needs approval is invoked only for operations the user accepted |
| TaskSafety.WaitingAgentMeansIdle | product/backend/application/agent_access/tasks.py:395-404 | WAITING_AGENT implies no open operation, no unanswered question and no RUNNING execution |
| TaskSafety.StopStays | product/backend/application/agent_access/tasks.py:324-404 | a cancelled task stays cancelled, and a paused one leaves that state only through a control |
| TaskSafety.CancelledIsFinal | product/backend/application/agent_access/tasks.py:324-373 | CANCELLED is final over every continuation of every run |
| TaskSafety.CancellationHasNoGap | product/backend/application/agent_access/tasks.py:324-373 | once a task is cancelled, nothing is pending and no crash has dropped a cancellation since, every operation of it that ever succeeded was passed to cancel_owned, with its receipt if it still has one |
| TaskSafety.RepeatedCancelRestores | product/backend/application/agent_access/tasks.py:324-373 | whatever a crash dropped, cancelling again and carrying it out restores this |
| TaskSafety.OneUnsettledPerProject | product/backend/application/agent_access/tasks.py:220-294 | of two unsettled operations of one project one was overtaken |
| TaskSafety.SuccessIsFinal | product/backend/application/agent_access/tasks.py:283-294 | an operation that ever succeeded and was not overtaken still is SUCCEEDED, so a settled cancellation passed it on with its receipt |
| TaskSafety.OvertakesExactly | product/backend/application/agent_access/tasks.py:283-294 | an operation is overtaken exactly by reconciling it while its own call is outstanding |
| TaskSafety.CompletedLeftExactly | product/backend/application/agent_access/tasks.py:375-404 | a completed task leaves that state exactly when the failure of an outstanding call is recorded for it, and then the operation was overtaken |
| TaskSafety.CompletedIsFinal | product/backend/application/agent_access/tasks.py:375-404 | COMPLETED is final in every run in which no operation of the task is overtaken |
| TaskSafety.SecondUnsettledExactly | product/backend/application/agent_access/tasks.py:283-294 | a second unsettled operation appears exactly when an UNKNOWN result of an overtaken call is recorded beside another unsettled operation |
| TaskSafety.CompletedCanBeLeft | product/backend/application/agent_access/tasks.py:289-294 | a concrete run in which a completed task becomes BLOCKED |
| TaskSafety.ReceiptCanBeMissed | product/backend/application/agent_access/tasks.py:324-392 | a concrete run after which a success of a cancelled task was never passed on with its receipt |
| TaskSafety.TwoCanBeUnsettled | product/backend/application/agent_access/tasks.py:283-294 | a concrete run with two unsettled operations in one project |
| TaskReceipts.SuccessLeftExactly | product/backend/application/agent_access/tasks.py:283-294 | an operation leaves SUCCEEDED exactly when its outstanding call is recorded with another outcome, and in every run it was then overtaken |
| TaskReceipts.HeldAfter | product/backend/application/agent_access/tasks.py:324-392 | a receipt comes to be handed over exactly by an accepted or repeated cancellation that finds the operation SUCCEEDED, or by a success that arrives in a cancelled task; no event but a crash takes it back |
| TaskReceipts.ReceiptExactly | product/backend/application/agent_access/tasks.py:324-392 | in a settled cancellation the receipt was handed over exactly if it was held at some earlier point or an event since then read it |
| TaskReceipts.ReceiptAfterLastCrash | product/backend/application/agent_access/tasks.py:324-392 | with crashes, what counts is what was handed over before the last one and what was read since |
| TaskReceipts.ReceiptIffSeenCancelled | product/backend/application/agent_access/tasks.py:324-392 | without crashes, a settled cancellation has handed over the receipt of an operation exactly if it was SUCCEEDED at some point at which its task was cancelled |
| TaskReceipts.ReceiptMissedExactly | product/backend/application/agent_access/tasks.py:324-392 | without crashes, the receipt of an operation that did succeed is missing exactly if its overtaken call was recorded as not succeeded before the task was cancelled and it did not succeed again |
| TaskGoals.OutcomeWasAssessed | product/backend/application/agent_access/tasks.py:423-437 | in every run an outcome a task has was assessed for the goal the task has had ever since |
| TaskGoals.FinishedIsFulfilled | product/backend/application/agent_access/tasks.py:332-345 | a task that the supervisor finishes was assessed as fulfilled for its current goal, which has not changed since |
| TaskReservations.LevelRefusedExactly | product/backend/application/agent_access/tasks.py:230-234 | an action is refused for want of permission exactly if the task is open, the agent acts in a continuous execution, and the capability is outside the levels, the execution was granted reading only, or it was granted preparing and the capability executes |
| TaskReservations.ReservedExactly | product/backend/application/agent_access/tasks.py:227-261 | when an action is registered for review, started, or known already, in terms of the task, the operation, the granted level, the room left and the review; in all other cases it is refused |
| TaskReservations.ReservedTask | product/backend/application/agent_access/tasks.py:244-261 | registering adds the operation as waiting, starting makes it running, and nothing else of the task changes but its state |
| TaskReservations.OperationWasCovered | product/backend/application/agent_access/tasks.py:230-249 | in every run an operation was added by acting on its content in an open task with room for it, and if the agent did so in a continuous execution, the level granted then covers the capability |
| TaskReservations.CallWasCovered | product/backend/application/agent_access/tasks.py:230-271 | in every run a business call was made because the user accepted the operation, or by an action the granted level covers |
| TaskReservations.OperationsAreBounded | product/backend/application/agent_access/tasks.py:241-246 | no task ever has more than 512 operations |
| TaskStates.NextStateStands | product/backend/application/agent_access/tasks.py:395-404 | a task that is not stopped is blocked exactly while an operation runs or is unknown, then waits for the user exactly while an operation waits for review or a question is open, then runs exactly while its agent does |
| TaskStates.SettledStands | product/backend/application/agent_access/tasks.py:375-393 | a result changes its operation alone; a failure blocks a task that is not paused or cancelled, otherwise the task stands where its facts put it |
| TaskStates.ReconsideredStands | product/backend/application/agent_access/tasks.py:114-404 | after a result other than a failure, a receipt, a declined operation, an answer, a new goal, a claim, a start or progress of the execution, or a resumption, the state of the task says exactly what is open in it |
| TaskStates.FinishedExactly | product/backend/application/agent_access/tasks.py:324-356 | a task can be finished exactly if it is not ended, nothing in it is open, its agent is not running and its business is done; by the supervisor only with an outcome fulfilled for its goal |
| TaskStates.RecoveredExactly | product/backend/application/agent_access/tasks.py:175-184 | a restart changes exactly the unfinished tasks with a turn under way |
| AgentExecution.AgentExecution.Start | product/backend/application/agent_access/execution.py:64-115 | an execution id already recorded starts nothing; otherwise the supervision starts exactly if none is under way, the checks pass, the task is neither stopped nor running an agent, its execution is recorded and the thread comes up |
| AgentExecution.AgentExecution.Stop | product/backend/application/agent_access/execution.py:122-127 | a stop request reaches the supervision of that task and no other |
| AgentExecution.AgentExecution.Run | product/backend/application/agent_access/execution.py:139-219 | looks are made one after the other with none left out, every step of the trace follows the rules for what they show, the supervision ends with nothing left to do, and the task is free again |
| AgentExecution.AgentExecution.AwaitWork | product/backend/application/agent_access/execution.py:169-198 | the wait between turns ends when a look finds nothing open, when a look at the time or a stop request ends it, or with the supervision |
| AgentExecution.CallIsClaimed | product/backend/application/agent_access/execution.py:143-158 | each call comes straight after the claim of its turn, at a look that found the task not stopped and this execution current, and after a look with source and authorisation unchanged and time left |
| AgentExecution.CallsAreApart | product/backend/application/agent_access/execution.py:160-206 | between two calls the first turn finished unrestricted with its goal not fulfilled; a look found the stored task open, with every question answered and no operation waiting, running or unknown, and nothing pending; there was no stop request and still time, and there was progress unless the supervisor had waited |
| AgentExecution.QuietLookEndsWait | product/backend/application/agent_access/execution.py:179-182 | a look that finds nothing open in the stored task and nothing pending ends the wait |
| AgentExecution.OpenLookWaits | product/backend/application/agent_access/execution.py:179-194 | a look that finds something to wait for is followed by the report of the wait, once, and then by a look at the time |
| AgentExecution.TimedLookDecides | product/backend/application/agent_access/execution.py:170-198 | after a look at the time the wait ends if it is over or a stop was requested, and the work is looked at again if not |
| AgentExecution.EndsExactly | product/backend/application/agent_access/execution.py:143-219 | what ends the supervision, in terms of the stored task, the time, the turn and the requests |
| AgentExecution.TellsAtOnce | product/backend/application/agent_access/execution.py:143-219 | that the limit is reached, that source or authorisation changed, that input is needed and that a wait was interrupted is reported straight after the look that found it |
| AgentExecution.StopIsHeeded | product/backend/application/agent_access/execution.py:156-206 | the model is not called after a claim or a look that found the task stopped, nor after anything else that ends the supervision |
| AgentExecution.FinishIsFulfilled | product/backend/application/agent_access/execution.py:165-202 | the task is asked to be finished only straight after an assessment that found its goal fulfilled |
| AgentExecution.CallsAreBounded | product/backend/application/agent_access/execution.py:143-160 | two calls are for different turns, in increasing order, within the number allowed |
| AgentExecution.CallsAreTurns | product/backend/application/agent_access/execution.py:143-160 | the calls are for turns 1, 2, 3 and so on |
| JsonSchema.VerdictsExclude | product/backend/application/agent_access/dsh_schema.py:126-128 | the verdicts of draft 2020-12 keywords never contradict each other, however far references are unfolded |
| JsonSchema.LevelMonotone | product/backend/application/agent_access/dsh_schema.py:126-128 | a verdict once reached stays |
| SchemaProjection.SchemaProjector.ProjectSchema | product/backend/application/agent_access/dsh_schema.py:15-103 | the visitor with its shared budget returns what the projection function says, for every schema, cyclic references included |
| SchemaProjection.SchemaProjector.VisitNode | product/backend/application/agent_access/dsh_schema.py:33-51 | reference expansion, cycle and depth checks, and the budget left after a node |
| SchemaProjection.SchemaProjector.VisitKeywords | product/backend/application/agent_access/dsh_schema.py:52-99 | the loop over the keywords of a node fills the projected dictionary and collects the notes |
| SchemaProjection.SchemaProjector.VisitKeyword | product/backend/application/agent_access/dsh_schema.py:54-93 | what one keyword contributes, or that it is refused |
| SchemaExistence.ProjectionExists | product/backend/application/agent_access/dsh_schema.py:15-103 | a schema has a projection exactly if it has an unfolding of at most 4096 nodes with supported keywords and references, no chain of more than 32 references or with one of them twice, and the branches of every anyOf apart in their types after absorption |
| SchemaExistence.UnfoldingIsUnique | product/backend/application/agent_access/dsh_schema.py:33-99 | a schema has one unfolding at most |
| SchemaExistence.VisitReaches | product/backend/application/agent_access/dsh_schema.py:33-99 | the visit of a node succeeds exactly on such an unfolding, uses one visit for each of its nodes, and returns a schema that admits the types of the node |
| SchemaExistence.DroppedIsNoted | product/backend/application/agent_access/dsh_schema.py:78-102 | a node that loses a constraint gets a note in its description |
| SchemaInduction.VisitInduction | product/backend/application/agent_access/dsh_schema.py:33-99 | what passes from parts to whole holds of every successful visit |
| SchemaDictionaries.ExpansionKeeps | product/backend/application/agent_access/dsh_schema.py:40-51 | the expansion of a reference keeps everything of target and siblings that asserts something |
| SchemaDictionaries.OutputKept | product/backend/application/agent_access/dsh_schema.py:52-99 | what a keyword puts into the projected dictionary is still there at the end, unless it is one of two unions |
| SchemaDictionaries.PropNamesKept | product/backend/application/agent_access/dsh_schema.py:56-59 | the projected schema declares the same property names, so the same properties are additional |
| SchemaDeterminacy.VisitSettles | product/backend/application/agent_access/dsh_schema.py:33-99 | the visit reaches every subschema an evaluation of the original can reach, within the budget |
| SchemaDeterminacy.VisitReturns | product/backend/application/agent_access/dsh_schema.py:33-99 | a projection is decided within the budget |
| SchemaDeterminacy.ProjectableDecides | product/backend/application/agent_access/dsh_schema.py:33-103 | a schema that can be projected gives every value exactly one verdict, although references may be cyclic |
| SchemaDeterminacy.ProjectionDecides | product/backend/application/agent_access/dsh_schema.py:33-103 | so does its projection |
| SchemaSettings.TypesSound | product/backend/application/agent_access/dsh_schema.py:23-31 | a value a projected schema accepts has one of the types accepted_types names |
| SchemaSettings.ApartSound | product/backend/application/agent_access/dsh_schema.py:66-71 | no value satisfies two branches told apart by type, by const or by a demanded tag |
| SchemaPreservation.ProjectionAccepts | product/backend/application/agent_access/dsh_schema.py:15-103 | projection never rejects a valid value, provided the branches of every projected oneOf are pairwise apart |
| SchemaUnions.AnyOfNeedsNoProviso | product/backend/application/agent_access/dsh_schema.py:60-72 | a schema whose unions are all anyOf needs no such proviso |
| SchemaUnions.PatternsOnlyAreRefused | product/backend/application/agent_access/dsh_schema.py:60-90 | the proviso is needed: a text matching exactly one of two patterns is valid under a oneOf and refused by its projection |
| SchemaExactness.ProjectionExact | product/backend/application/agent_access/dsh_schema.py:21-72 | on the core keywords a successful projection gives every value the same verdict, including anyOf to oneOf and the absorption of integer branches |
| ToolSchemas.DshToolSchemas.Adapt | product/backend/application/agent_access/dsh_schema.py:110-124 | a batch of tools is adapted as a whole and replaces the definitions, or nothing changes |
| ToolSchemas.CheckedCallsFitWhatIsShown | product/backend/application/agent_access/dsh_schema.py:110-128 | arguments that pass the check against the original are allowed by the definition the client was shown |
| Relay.StdioRelay.Run | product/backend/application/agent_access/connector.py:66-239 | the loop stops at the first line that ends it and for the reason given; what is replied, reported and posted is exactly what comes of the lines up to there, and the whole trace is safe, so that every response passed on is genuine |
| Relay.StdioRelay.Deal | product/backend/application/agent_access/connector.py:79-96 | one line of input: how it ends the relay, if it does, and what is replied, reported and posted |
| Relay.StdioRelay.Handle | product/backend/application/agent_access/connector.py:96-237 | one message with the profile and credential found then: the relay breaks down exactly if it dies of the message, and otherwise the message is answered or refused |
| Relay.StdioRelay.Serve | product/backend/application/agent_access/connector.py:117-225 | a session that is owed comes first, then the check of a call, then the message; which of them fails or raises decides how the line ends |
| Relay.StdioRelay.Negotiate | product/backend/application/agent_access/connector.py:140-155 | the saved initialization is posted; it succeeds exactly on an accepted response, breaks the relay exactly on a fatal one, and later posts carry the session that brings |
| Relay.StdioRelay.Resume | product/backend/application/agent_access/connector.py:140-162 | the session is rebuilt exactly if the response to the initialization and the one to its notification accept them |
| Relay.StdioRelay.CheckCall | product/backend/application/agent_access/connector.py:163-175 | a tool call goes on exactly if the definitions in force, or those of the list of tools read next, accept its arguments; parameters that are not an object raise only after such definitions are there |
| Relay.StdioRelay.Receive | product/backend/application/agent_access/connector.py:176-214 | a denial, a 404 with a session, a reply with another id and the status of a notification fail the line; session, initialization and tools are what the response says |
| Relay.StdioRelay.Refresh | product/backend/application/agent_access/connector.py:97-116 | the profile and the credential found decide whether the line can be dealt with, and a profile that changed forgets the session, the tools and their definitions |
| RelayLines.CrashesExactly | product/backend/application/agent_access/connector.py:131-225 | a message ends in an exception that nothing catches exactly if its `_meta` is not an object, a repeated initialization it waits for is answered fatally, a checked call has parameters that are no object, or the reply to an initialization or a list of tools has a result that is not one |
| RelayLines.MessageIsAnswered | product/backend/application/agent_access/connector.py:112-237 | a message with an id gets exactly one reply, whatever the server says, unless the relay dies of it before replying |
| RelayLines.PostedExactly | product/backend/application/agent_access/connector.py:112-176 | a request is posted exactly if there are a profile and a credential, it is not answered here, a session that is owed is rebuilt, and a checked call fits its definition |
| RelayLines.PostedIsAnsweredExactly | product/backend/application/agent_access/connector.py:176-237 | a posted request gets its response exactly if that is the reply to it and can be shown, and an error in all other cases, unless the relay dies of the result of an initialization |
| RelayLines.ForeignRepliesAreRefused | product/backend/application/agent_access/connector.py:185-237 | a response with another id is never passed on; the request is refused |
| RelayLines.UnpostedIsAnsweredExactly | product/backend/application/agent_access/connector.py:112-237 | which error a request gets that is not posted |
| RelayLines.ReportsExactly | product/backend/application/agent_access/connector.py:196-214 | what is reported of a list of tools, of a call and of a notification |
| RelayLines.OneReplyToAll | product/backend/application/agent_access/connector.py:66-239 | a run has sent exactly one reply to each line with an id before the one it ends at, in order, and to that one if it dies after replying |
| RelayLines.RequestAnsweredExactly | product/backend/application/agent_access/connector.py:66-239 | a request is answered exactly if the run gets past its line, or dies there only after the reply |
| RelayLines.SentInOrder | product/backend/application/agent_access/connector.py:66-239 | the client messages posted are those of the lines, in order and at most once each |
| RelayLines.StdioKeepsItsLines | product/backend/application/agent_access/connector.py:66-239 | the relay is a machine of which the theorems about replies and posts hold |
| RelayLines.RelayCanBreak | product/backend/application/agent_access/connector.py:131-147 | a concrete run in which a request is never answered because the repeated initialization is answered with a list |
| RelayTrace.TraceIsGenuine | product/backend/application/agent_access/connector.py:97-176 | each line shows the profile and the credential found then, each post the next response, and a generation changes exactly when the profile found differs from the one found before |
| RelayTrace.RepliesAreGenuine | product/backend/application/agent_access/connector.py:176-200 | a response that is passed on is the response to the post of the line's own message just before: a JSON-RPC 2.0 reply with the id of that message, with a status other than 401 and 403, and other than 404 with a session in force |
| RelayTrace.BreaksExactly | product/backend/application/agent_access/connector.py:97-183 | a generation ends exactly when the profile found is another one, or a message or ping of a session is answered with status 404 |
| RelayTrace.ReinitializesExactly | product/backend/application/agent_access/connector.py:140-192 | an initialization is accepted exactly by a reply to the client's own with an object as its result, or by an accepted notification after an accepted repetition |
| RelayTrace.AdaptedFromTools | product/backend/application/agent_access/connector.py:168-194 | definitions come from a list of tools in a response to the relay's own request or in the reply to one of the client |
| RelayTrace.NoBusinessBeforeReinitialization | product/backend/application/agent_access/connector.py:97-162 | after the profile changed or a response said the session is unknown, nothing but initialize is posted before responses accept an initialization again |
| RelayTrace.ResumptionIsAccepted | product/backend/application/agent_access/connector.py:140-160 | a repeated initialization counts only after an accepted response to it and, with nothing posted in between, an accepted one to its notification |
| RelayTrace.CallsFitCurrentDefinitions | product/backend/application/agent_access/connector.py:163-176 | a checked tool call that was posted fits the definition of its tool in the last list of tools a response brought and that could be adapted, with no change of the profile since |
| RelayTrace.PostedCallsFitWhatIsShown | product/backend/application/agent_access/connector.py:163-193 | so its arguments are valid under the projected definition the client was shown |
| RelayTrace.ToolsReadAfterListing | product/backend/application/agent_access/connector.py:197-206 | TOOLS_READ is reported only after a response to tools/list listed some tools, with no change of the profile and no other list since |
| RelayTrace.SessionsAreCurrent | product/backend/application/agent_access/connector.py:126-155 | a session id is sent only if a response issued it, with no change of the profile and no 404 for the session since |
| Reachability.FindPath | product/protocols/checks/relationships.py:132-149 | a shortest path of at most max_depth edges when there is one; otherwise unreachable at any depth or undecided |
| Reachability.SearchOutcomeExact | product/protocols/checks/relationships.py:132-149 | found means a path within the bound exists; unreachable means none of any length exists |
| Reachability.DecidedOutcomeIsStable | product/protocols/checks/relationships.py:132-149 | a decided outcome is the same at every greater depth |
| Reachability.EventuallyDecided | product/protocols/checks/relationships.py:132-149 | some depth decides every search |
| Relationships.AcceptGraph | product/protocols/checks/relationships.py:94-119 | accepted exactly when no edge is repeated and the edges form no cycle |
| Relationships.Observe | product/protocols/checks/relationships.py:152-221 | the status is the reference meaning; a MATCH on an active organisation or role reports a real shortest path of at most max_depth + 1 nodes from the right start to the right target, and one on a grant names its grantor and grantee |
| Relationships.SearchSubjectOrganizations | product/protocols/checks/relationships.py:160-182 | searching one organisation after the other gives the best outcome, and a path found is a shortest one from an organisation of the subject |
| Relationships.CollectGrantStates | product/protocols/checks/relationships.py:183-216 | the states of the applicable grants over the uncertainty window, and a path that names the grantor and the grantee of one of them |
| RelationshipMeaning.ActiveGrantExactly | product/protocols/checks/relationships.py:183-221 | an active sharing or delegation is found exactly if the observation is certain and some grant of the kind, by the owner, for the resource and the action, to the subject or a group of the subject, is valid, not ended and not revoked at every instant of the window |
| RelationshipMeaning.AbsentGrantExactly | product/protocols/checks/relationships.py:183-221 | its absence is found exactly if the observation is certain and no such grant has begun at any instant of the window |
| RelationshipMeaning.EndedGrantExactly | product/protocols/checks/relationships.py:183-221 | an expired or revoked one is found exactly if the observation is certain, some such grant is so throughout, and all others are so or have not begun |
| RelationshipMeaning.ActivePathNamesGrant | product/protocols/checks/relationships.py:210-221 | the path of an active grant names its grantor and its grantee, through the group if it was made to one |
| RelationshipMeaning.RoleExactly | product/protocols/checks/relationships.py:176-221 | a role is found by a path of inheritance within the depth, and its absence only when everything reachable was within the depth |
| RelationshipMeaning.OrganizationExactly | product/protocols/checks/relationships.py:160-221 | the same for the three scopes of organisations |
| Relationships.GrantStatusHoldsThroughout | product/protocols/checks/relationships.py:183-221 | a decided sharing or delegation status, and its set of states, hold at every instant of the uncertainty window |
| Relationships.GrantOrderIrrelevant | product/protocols/checks/relationships.py:183-221 | the status does not depend on the order of the grants |
| Relationships.DecidedStatusIgnoresDepth | product/protocols/checks/relationships.py:160-182 | a decided organisation or role status does not change when max_depth grows |
| Relationships.StatesExclude | product/protocols/checks/relationships.py:152-221 | requirements differing only in state cannot both MATCH one snapshot |
| Conditions.MatchConditions | product/protocols/checks/conditions.py:60-83 | the checks, their early returns and the combined status |
| Conditions.OverlapSound | product/protocols/checks/conditions.py:95-107 | conditions the overlap test keeps apart never both match an observation drawn from one snapshot, an absent condition read as an authenticated principal |
| Conditions.OverlapSoundExactly | product/protocols/checks/conditions.py:60-107 | as the matcher reads absent conditions, the test fails exactly when one side is unconditional and the other about anonymous principals |
| Conditions.OverlapExactly | product/protocols/checks/conditions.py:95-107 | the test says yes exactly if some observation, in which no question about a relationship is answered in two ways, meets both conditions |
| Conditions.OverlapSymmetric | product/protocols/checks/conditions.py:95-107 | the test does not depend on the order of its arguments |
| Conditions.CollectedMatchMeansAll | product/protocols/checks/conditions.py:86-93 | a collected MATCH means at least one observation and that all matched |
| Dependencies.CycleCheck.Visit | product/protocols/recording/flow_draft.py:446-456 | the depth-first visit fails only on a cycle, and lists finished nodes after their dependencies |
| Dependencies.RejectCycles | product/protocols/recording/flow_draft.py:442-459 | the check succeeds exactly on acyclic graphs, with an order respecting the dependencies |
| Dependencies.TransitiveDependencies | product/protocols/web/workflow.py:234-243 | the worklist ends with exactly the nodes depended on |
| Dependencies.OrderExcludesCycles | product/protocols/web/workflow.py:201-226 | a graph with an order respecting its dependencies has no cycle |
| Dependencies.DependencyPrecedes | product/protocols/web/workflow.py:201-226 | in such an order a transitive dependency differs from and precedes its dependent |
| Workflow.Validate | product/protocols/web/workflow.py:185-232 | a binding is accepted exactly when all its rules hold and a fingerprint it carries is its own; it is returned with its fingerprint |
| Workflow.FrozenIsFixed | product/protocols/web/workflow.py:227-231 | a frozen binding is accepted again as it is, and no accepted binding with the same fingerprint differs from it |
| Workflow.CheckTarget | product/protocols/web/workflow.py:185-192 | exactly one target step, and it is the declared one |
| Workflow.CheckGraph | product/protocols/web/workflow.py:201-217 | references stay inside the workflow and the steps form no cycle |
| Workflow.CheckSlot | product/protocols/web/workflow.py:218-226 | a slot is produced by a step the consumer depends on |
| Workflow.ProducerPrecedesConsumer | product/protocols/web/workflow.py:185-232 | in an accepted workflow every slot producer is another step and precedes its consumer in every order respecting the dependencies |
| Subsequences.Subsequence | product/protocols/checks/scenarios.py:200-202 | the greedy test succeeds exactly when a strictly increasing embedding exists |
| Subsequences.OmissionDropsSteps | product/protocols/checks/scenarios.py:209 | an omission has a multiset of steps strictly below the control's |
| Subsequences.RepetitionAddsSteps | product/protocols/checks/scenarios.py:211 | a repetition has one strictly above it |
| Scenarios.VariantFits | product/protocols/checks/scenarios.py:203-217 | an experiment fits its control in the way its kind says |
| Scenarios.ValidateExperimentVariants | product/protocols/checks/scenarios.py:192-218 | all experiments fit their controls |
| Scenarios.VariantsCounted | product/protocols/checks/scenarios.py:208-213 | omission is strictly below, reordering equal to, repetition strictly above the control, and a change of subject keeps the number of steps |
| Scenarios.VariantKindsExclude | product/protocols/checks/scenarios.py:208-213 | an omission or a repetition is of no other counted kind |
| ScenarioMeaning.StepsExactly | product/protocols/checks/scenarios.py:195-199 | two invocations count as the same step exactly if their batches agree and, item by item, their actions, resources and, where they count, subjects |
| ScenarioCases.ValidateScenarioCases | product/protocols/checks/scenarios.py:132-189 | accepted exactly when coverage, items, occurrences, batch obligations, variants and challenges are right for the cases and permissions of the actions |
| ScenarioCases.Collect | product/protocols/checks/scenarios.py:136-170 | cases by id and permissions by reference are collected from the actions, the later entry counting |
| ScenarioCases.OrderIsIrrelevant | product/protocols/checks/scenarios.py:132-189 | when no id and no permission is ambiguous, the order of actions and cases does not matter |
| ScenarioCases.MatchSlots | product/protocols/checks/scenarios.py:141-166 | every invocation takes up its own cases, item by item |
| ScenarioCases.CheckChallenges | product/protocols/checks/scenarios.py:172-189 | every challenge repeats a complete batch of its control or has normal counterparts |
| ScenarioCases.PositionHasCase | product/protocols/checks/scenarios.py:141-168 | each position (experiment, invocation, item) has a case that names it |
| ScenarioMeaning.PositionIsMet | product/protocols/checks/scenarios.py:145-166 | and it has the permission, subject and resource of the item and the obligation of its batch; a normal experiment refuses nothing |
| ScenarioMeaning.SlotMatchesExactly | product/protocols/checks/scenarios.py:143-166 | an invocation matches its cases exactly if there is one for each item and each meets its position |
| ScenarioMeaning.ChallengedExactly | product/protocols/checks/scenarios.py:172-189 | a challenge counts exactly if the control has the same batch going the same way, or a normal case for each case that must fail |
| ScenarioMeaning.CoveredExactly | product/protocols/checks/scenarios.py:137-140 | the frozen invocations cover the document exactly if their keys are those of its invocations, none twice |
| ScenarioCases.PositionsHaveDifferentCases | product/protocols/checks/scenarios.py:141-168 | different positions have different cases |
| ScenarioCases.OccurringCaseHasPosition | product/protocols/checks/scenarios.py:167-168 | every case that names an occurrence stands at a position |
| Sorting.SortByAgree | product/protocols/checks/execution_request.py:507-512 | two lists sort to the same list exactly when they have the same elements, if the key tells elements apart |
| ExecutionRequest.Canonicalise | product/protocols/checks/execution_request.py:501-512 | the nested in-place sorts give the canonical request |
| ExecutionRequest.CheckIdentities | product/protocols/checks/execution_request.py:433-445 | accepted exactly when no identity has two sets of facts |
| CanonicalRequest.RequestForms | product/protocols/checks/execution_request.py:501-512 | requests have the same canonical form exactly when they differ only in the order of actions, cases, twins and proof requirements |
| CanonicalRequest.CanonTwice | product/protocols/checks/execution_request.py:501-512 | canonicalisation is idempotent |
| RequestCodec.CanonActionValid | product/protocols/checks/execution_request.py:273-307 | a valid action stays valid when its cases, twins and proofs are sorted |
| RequestCodec.CanonValid | product/protocols/checks/execution_request.py:416-494 | a valid request stays valid when it is sorted exactly if its scenario, when it has one, accepts the sorted actions |
| RequestCodec.ScenarioSurvivesSorting | product/protocols/checks/execution_request.py:456-460 | and it does when no case id and no permission of the request is ambiguous |
| RequestCodec.CanonicalBytes | product/protocols/checks/execution_request.py:501-518 | the bytes of the canonical request within the limits |
| RequestCodec.BytesAgreeExactly | product/protocols/checks/execution_request.py:501-518 | two valid requests have equal bytes exactly when they differ only in order |
| RequestCodec.ParsesBackSorted | product/protocols/checks/execution_request.py:521-532 | the canonical bytes of a valid request are read back as the sorted request and no other, exactly if its scenario, when it has one, accepts the sorted actions |
| RequestCodec.ParsedIsCanonical | product/protocols/checks/execution_request.py:521-532 | a request that was read is in canonical order and is written as the bytes it was read from |
| RequestMeaning.TwinExactly | product/protocols/checks/execution_request.py:241-298 | two cases are a twin exactly if one must be refused, the other is a control under the selected permission, and they agree in effects, owner, execution, recovery, source, configuration and proofs, or differ in the state of the resource with the same methods of proof |
| RequestMeaning.EachRefusalHasOneTwin | product/protocols/checks/execution_request.py:273-307 | in a valid action a case that must be refused and is not left to a scenario has exactly one twin, with a control that differs in nothing else |
| RequestMeaning.EachControlIsUsed | product/protocols/checks/execution_request.py:303-306 | every control of a valid action is there for the twin of some refusal |
| RequestMeaning.EffectsAreProved | product/protocols/checks/execution_request.py:184-216 | in a valid request each effect of a case is decided by exactly one proof, about the resource of that case |
| RequestMeaning.IdIdentifiesCase | product/protocols/checks/execution_request.py:279-284 | the id of a case identifies its action, the revision of that and everything about the case but its id, its roles and the order of its proofs |
| RequestMeaning.PlanIdentifiesRequest | product/protocols/checks/execution_request.py:444-462 | the plan of a request identifies its project, source, epoch, engine, scenario and its actions up to order |
| AccessController.MCPAccessController.constructor | product/backend/application/agent_access/service.py:83-110 | the service starts with the stored pairing, no grants and no authorities |
| AccessController.MCPAccessController.Pair | product/backend/application/agent_access/service.py:116-125 | a new token clears the grants; an existing pairing only accepts connections again |
| AccessController.MCPAccessController.Rotate | product/backend/application/agent_access/service.py:127-139 | a new token clears grants, authorities and session |
| AccessController.MCPAccessController.Resume | product/backend/application/agent_access/service.py:141-150 | refused without a token |
| AccessController.MCPAccessController.Pause | product/backend/application/agent_access/service.py:161-165 | no grant and no authority survives a pause |
| AccessController.MCPAccessController.Forget | product/backend/application/agent_access/service.py:167-173 | the pairing is deleted with everything granted |
| AccessController.MCPAccessController.SetLevel | product/backend/application/agent_access/service.py:175-190 | each adjustment issues a new authority id |
| AccessController.MCPAccessController.ExecutionAuthority | product/backend/application/agent_access/service.py:192-196 | an authority is given exactly to projects with EXECUTE, and it is active |
| AccessController.MCPAccessController.ExecutionAuthorityActive | product/backend/application/agent_access/service.py:198-202 | activity needs an open connection, a token, EXECUTE and the current id |
| AccessController.MCPAccessController.Authorize | product/backend/application/agent_access/service.py:262-282 | only the current token is accepted, and the attempt is recorded |
| AccessController.MCPAccessController.Require | product/backend/application/agent_access/service.py:212-234 | a request needs the current token of an open service; above READ it needs a grant, which for EXECUTE is EXECUTE |
| AccessController.MCPAccessController.NoteActivity | product/backend/application/agent_access/service.py:243-260 | a request without a client identity does not erase the known one |
| AccessController.MCPAccessController.Close | product/backend/application/agent_access/service.py:236-241 | the process forgets the token but the store keeps it |
| AccessRules.RunKeeps | product/backend/application/agent_access/service.py:116-241 | in every run authorities and grants exist only with a token and connections accepted, and no two projects share an authority id |
| AccessRules.RevokedStaysRevoked | product/backend/application/agent_access/service.py:116-202 | an authority id that was active and no longer is never becomes active again, for any project, across restarts |
| AccessRules.GrantsHaveACause | product/backend/application/agent_access/service.py:116-210 | a project is above READ only because that level was set while connections were accepted and nothing was cleared since |
| AccessRules.ClientHasACause | product/backend/application/agent_access/service.py:243-260 | the client name is that of the last request that gave one while connections were accepted, with nothing cleared since |
| Utf8.CharFirst | product/protocols/runtime/runtime_identity.py:42 | no encoded character begins another |
| Utf8.EncodeInjective | product/protocols/runtime/runtime_identity.py:42 | UTF-8 text is read back in one way |
| RuntimeManifest.SafePathWithoutNul | product/protocols/runtime/runtime_identity.py:25-35 | an accepted path holds no NUL |
| RuntimeManifest.SafePathParts | product/protocols/runtime/runtime_identity.py:25-35 | an accepted path is its parts, none of which is empty, leads elsewhere, or names a device, a drive or a stream |
| RuntimeManifest.FromHexInjective | product/protocols/runtime/runtime_identity.py:44 | a content digest is determined by its bytes |
| RuntimeManifest.SourceStream | product/protocols/runtime/runtime_identity.py:38-45 | the bytes fed to the digest |
| RuntimeManifest.StreamDecodable | product/protocols/runtime/runtime_identity.py:25-45 | two accepted file lists hash the same stream exactly when they name the same paths and contents in order |
| RuntimeManifest.FingerprintIdentifiesFiles | product/protocols/runtime/runtime_identity.py:38-71 | two accepted manifests have the same source fingerprint exactly when they freeze the same paths and contents |
| LauncherLines.LinesExact | product/launcher/windows/launcher.c:175-182 | splitting at newlines loses nothing |
| LauncherLines.LinesUnique | product/launcher/windows/launcher.c:175-182 | and there is one way to do it |
| LauncherLines.DeliveredExactly | product/launcher/windows/launcher.c:176-182 | what is handed on are the lines of at most 4095 bytes, each in its place among them, without one carriage return at its end |
| LauncherLines.LineReader.Take | product/launcher/windows/launcher.c:176-182 | one byte: the buffer holds the current line while it fits, and no write leaves it |
| LauncherLines.LineReader.EndLine | product/launcher/windows/launcher.c:177-179 | a newline hands on a line that fits, with at most one trailing carriage return removed |
| LauncherLines.LineReader.ReadOutput | product/launcher/windows/launcher.c:172-185 | however the stream falls into blocks, the lines handed on are the newline-terminated lines of at most 4095 bytes, in order |

## Left out

- TaskStore.Store.Act: a capability of level READ takes another path, which changes nothing but the observed reads; operations, questions and follow-ups are maps keyed by their ids, so the order of the lists, the event log, the revision counter and the observed reads are not modelled; the byte limit on the stored task is a boolean.
- TaskProtocol.StepKeeps: `cancel_owned` and the business call are steps without an effect on the store; what they do inside a capability is not modelled.
- TaskStore.Store.Create: an id that is already a task of another project is assumed away; the ids are random in the code, which reads such a task as missing and then writes over its row.
- AgentExecution.AgentExecution.Run: the prompt, the events of a running turn and the kinds of exception are not modelled; any look at the world may fail.
- SchemaPreservation.ProjectionAccepts: the proviso is sufficient, not necessary; branches that patterns or numeric bounds keep disjoint are not recognised as apart.
- JsonSchema.VerdictsExclude: percent-encoded references and targets below a subschema with an `$id` of its own are assumed away, because the projection does not resolve them as JSON Schema does.
- SchemaProjection.SchemaProjector.ProjectSchema: the text of the notes in a description is one constant, documents are ordered dictionaries of known keywords and names, and list-valued `type` is kept but not analysed, as in the code.
- Relay.StdioRelay.Run: the method of a message is a text, and the pipe and the activity receipt do not fail; the protocol-version headers and the wording of errors are not modelled.
- Relationships.Observe: the reason code and the time of an observation are not modelled.
- Conditions.OverlapExactly: the observation that meets both conditions may hold more than the four relationship facts the program stores in one; and two requirements of different scope that no snapshot meets together count as compatible, as in the code.
- Workflow.Validate: the patterns of single fields are not modelled, and the digest is any function of the binding.
- ScenarioCases.ValidateScenarioCases: documents are taken as their own validators accept them; a missing permission or case, an exception in the code, is a rejection here.
- RequestCodec.ParsesBackSorted: reading is the relation of bytes to the request read, for a decoder that inverts the encoder; the JSON text itself is not modelled.
- RequestCodec.CanonValid: the checks of requirements and selections are a function of the sets of permissions they compare, and the scenario check a function of the scenario and the actions.
- RequestCodec.ScenarioSurvivesSorting: the condition is sufficient; where two entries disagree about a permission the later one counts, and the exact condition is that of `CanonValid`.
- ExecutionRequest.CheckIdentities: the validators of one record alone (field patterns, recovery origins, proof reference kinds) are not modelled.
- AccessController.MCPAccessController.Authorize: the header is given as the token it presents, absent when it is not a bearer header; views and the clock are not modelled.
- RuntimeManifest.FingerprintIdentifiesFiles: sizes are not part of the fingerprint, and the receipt of a launch is not modelled.
- LauncherLines.LineReader.ReadOutput: what is done with a line, and that a C string ends at its first NUL, is not modelled.
- HTTP, SQLite, subprocesses, windows and threads appear only as arbitrary answers and atomic steps.
- Capability handlers, reports, the web interface, recording and runner models, and client configuration files are dispatch, formatting or single-record checks.
