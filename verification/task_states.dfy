/** Where a task stands: what its state says about its operations, its questions and its execution, after each event
    that takes them into account; and when a task can be finished.
 */
module TaskStates {
  import opened Collections
  import opened TaskRules
  import opened TaskStore
  import opened TaskProtocol
  import opened TaskSafety

  predicate IsOver(t: Task) {
    t.state == Paused || t.state == Cancelled || t.state == Completed
  }

  ghost predicate Uncertain(t: Task) {
    exists o | o in t.operations :: t.operations[o].state == OpRunning || t.operations[o].state == OpUnknown
  }

  ghost predicate NeedsUser(t: Task) {
    || (exists o | o in t.operations :: t.operations[o].state == OpWaiting)
    || (exists q | q in t.questions :: !t.questions[q].answered)
  }

  ghost predicate AgentWorks(t: Task) {
    t.execution.Some? && t.execution.value.state == ExRunning
  }

  /** A stopped task stays stopped. Otherwise it is blocked exactly while some operation runs or is unknown; apart
      from that it waits for the user exactly while an operation waits for review or a question is open; and apart
      from both it runs exactly while the agent does. */
  ghost predicate Stands(t: Task, state: TaskState) {
    if IsOver(t) then state == t.state
    else
      && (state == Blocked <==> Uncertain(t))
      && (state == WaitingUser <==> !Uncertain(t) && NeedsUser(t))
      && (state == Running <==> !Uncertain(t) && !NeedsUser(t) && AgentWorks(t))
      && state in {Blocked, WaitingUser, Running, WaitingAgent}
  }

  lemma NextStateStands(t: Task)
    ensures forall state :: state == NextState(t) <==> Stands(t, state)
  {
    assert Stands(t, NextState(t));
  }

  /** A result is recorded whatever the operation's state was. A failure blocks a task that is not paused or
      cancelled; otherwise the task stands where its facts put it, the result included. */
  lemma SettledStands(t: Task, id: OpId, state: OpState)
    requires id in t.operations
    ensures var u := Settle(t, id, state);
            && u.operations.Keys == t.operations.Keys
            && u.operations[id] == Operation(t.operations[id].content, state)
            && (forall o | o in t.operations && o != id :: u.operations[o] == t.operations[o])
            && u == t.(operations := u.operations, state := u.state)
            && (if state == OpFailed && t.state != Paused && t.state != Cancelled then u.state == Blocked
                else Stands(u.(state := t.state), u.state))
  {
    NextStateStands(t.With(id, state));
  }

  /** The event makes the task stand where its facts put it: a result other than a failure, a receipt, a declined
      operation, an answer, a new goal, a claim, a start or progress of the execution, or a resumption. */
  ghost predicate Reconsiders(w: World, e: Event, t: TaskId)
    requires t in w.tasks
  {
    match e
    case Record(k) =>
      k.0 == t && MayRecord(w, k)
      && (w.flights[k].outcome == OpFailed ==> w.tasks[t].state == Paused || w.tasks[t].state == Cancelled)
    case Reconcile(k) => k.0 == t && MayReconcile(w, k)
    case Refuse(u, id) => u == t && HasOp(w, (t, id)) && StateAt(w, (t, id)) == OpWaiting
    case AnswerAgent(u, _) => u == t && Step(w, e) != w
    case AddGoal(u, _, _, _) => u == t && Step(w, e) != w
    case Claim(u, _, _) => u == t && Step(w, e) != w
    case ExecutionStarted(u, _) => u == t && Step(w, e) != w
    case ExecutionProgress(u, _, _, _) => u == t && Step(w, e) != w
    case ControlTask(u, action, _) => u == t && action == Resume && w.tasks[t].state !in {Cancelled, Completed}
    case _ => false
  }

  lemma StandsSame(t: Task, u: Task)
    requires Stands(t, u.state) && u == t.(state := u.state)
    ensures Stands(u, u.state)
  {
  }

  lemma UpdateStands(task: Task, e: Event)
    requires Administrative(e) && !e.AskUser? && !e.Assess? && TaskUpdate(task, e).Some?
    ensures var u := TaskUpdate(task, e).value; Stands(u, u.state)
  {
    var u := TaskUpdate(task, e).value;
    NextStateStands(u.(state := task.state));
    assert u.state == NextState(u.(state := task.state));
  }

  lemma ArrivalStands(w: World, k: Key, outcome: OpState)
    requires HasOp(w, k)
    requires outcome == OpFailed ==> w.tasks[k.0].state == Paused || w.tasks[k.0].state == Cancelled
    ensures k.0 in Arrive(w, k, outcome).tasks
    ensures var u := Arrive(w, k, outcome).tasks[k.0]; Stands(u, u.state)
  {
    var t := w.tasks[k.0];
    SettledStands(t, k.1, outcome);
    StandsSame(Settle(t, k.1, outcome).(state := t.state), Settle(t, k.1, outcome));
  }

  lemma ResumptionStands(task: Task, businessDone: bool)
    requires task.state != Cancelled && task.state != Completed
    ensures Control(task, Resume, businessDone).Some?
    ensures var u := Control(task, Resume, businessDone).value; Stands(u, u.state)
  {
    NextStateStands(task.(state := WaitingAgent));
  }

  /** After such an event the state of the task says exactly what is open in it. */
  lemma ReconsideredStands(w: World, e: Event, t: TaskId)
    requires t in w.tasks && Reconsiders(w, e, t)
    ensures t in Step(w, e).tasks
    ensures var u := Step(w, e).tasks[t]; Stands(u, u.state)
  {
    hide Stands, Settle, NextState;
    if e.Record? {
      ArrivalStands(w.(flights := w.flights - {e.key}), e.key, w.flights[e.key].outcome);
    } else if e.Reconcile? {
      ArrivalStands(w.(reconciling := w.reconciling - multiset{e.key}, overtaken := Step(w, e).overtaken), e.key,
                    OpSucceeded);
    } else if e.Refuse? {
      ArrivalStands(w, (t, e.id), OpDeclined);
    } else if e.ControlTask? {
      ResumptionStands(w.tasks[t], e.businessDone);
    } else {
      UpdateStands(w.tasks[t], e);
    }
  }

  /** A task can be finished exactly if it is not ended, nothing in it is open, its agent is not running and the
      business behind it is done; the supervisor's finish also needs an outcome that is fulfilled for its goal. */
  lemma FinishedExactly(t: Task, byAgent: bool, businessDone: bool)
    ensures Control(t, if byAgent then FinishFulfilled else Finish, businessDone).Some?
        <==> && t.state !in {Cancelled, Completed} && businessDone
             && (forall o | o in t.operations :: t.operations[o].state in {OpSucceeded, OpFailed, OpDeclined})
             && (forall q | q in t.questions :: t.questions[q].answered)
             && (t.execution.Some? ==> t.execution.value.state != ExRunning)
             && (byAgent ==> t.outcome == Some(Outcome(true, t.goal)))
  {
    forall o | o in t.operations
      ensures t.operations[o].state in {OpSucceeded, OpFailed, OpDeclined}
          <==> !Unsettled(t.operations[o].state) && t.operations[o].state != OpWaiting
    {
      var state := t.operations[o].state;
      assert state.OpWaiting? || state.OpRunning? || state.OpUnknown? || state.OpSucceeded? || state.OpFailed?
             || state.OpDeclined?;
    }
  }

  /** A restart changes exactly the unfinished tasks with a turn under way. */
  lemma RecoveredExactly(t: Task)
    ensures Recover(t) != t
        <==> && t.state !in {Cancelled, Completed} && t.execution.Some?
             && t.execution.value.state in {ExRunning, ExWaiting}
    ensures Recover(t) != t ==>
              Recover(t) == t.(execution := Some(t.execution.value.(state := ExUnknown)),
                               state := if t.state == Paused then Paused else Blocked)
  {
  }
}
