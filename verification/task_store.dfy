/** The stored tasks and the transactions on them, each proved to do what the rules say.
 */
module TaskStore {
  import opened Collections
  import opened TaskRules

  /** Some operation of the project is running or unknown. */
  ghost predicate UnsettledWrite(tasks: map<TaskId, Task>, project: ProjectId) {
    exists t | t in tasks :: tasks[t].project == project && AnyUnsettled(tasks[t])
  }

  function Updated(tasks: map<TaskId, Task>, t: TaskId, value: Option<Task>): map<TaskId, Task> {
    if value.None? then tasks else tasks[t := value.value]
  }

  class Store {
    var tasks: map<TaskId, Task>

    constructor ()
      ensures tasks == map[]
    {
      tasks := map[];
    }

    /** Creates a task under an id of the client's choice, which stands for one request only. */
    method Create(t: TaskId, project: ProjectId, goal: string, growth: bool) returns (r: Addition)
      requires t in tasks ==> tasks[t].project == project
      modifies this
      ensures r.Added? <==> t !in old(tasks) && growth
      ensures r.AlreadyThere? <==> t in old(tasks) && old(tasks)[t].request == goal
      ensures tasks == if r.Added? then old(tasks)[t := NewTask(project, goal)] else old(tasks)
    {
      if t in tasks {
        return if tasks[t].request != goal then Rejected else AlreadyThere;
      }
      if !growth {
        return Rejected;
      }
      tasks := tasks[t := NewTask(project, goal)];
      return Added;
    }

    /** Reads task after task and stops at the first unsettled operation. */
    method HasUnsettledWrite(project: ProjectId) returns (found: bool)
      ensures found <==> UnsettledWrite(tasks, project)
    {
      var rest := tasks.Keys;
      while rest != {}
        invariant rest <= tasks.Keys
        invariant forall t | t in tasks && t !in rest :: !(tasks[t].project == project && AnyUnsettled(tasks[t]))
        decreases rest
      {
        var t :| t in rest;
        if tasks[t].project == project {
          found := AnyOpenOperation(tasks[t].operations);
          if found {
            return;
          }
        }
        rest := rest - {t};
      }
      found := false;
    }

    method AnyOpenOperation(operations: map<OpId, Operation>) returns (found: bool)
      ensures found <==> exists o | o in operations :: Unsettled(operations[o].state)
    {
      var rest := operations.Keys;
      while rest != {}
        invariant rest <= operations.Keys
        invariant forall o | o in operations && o !in rest :: !Unsettled(operations[o].state)
        decreases rest
      {
        var o :| o in rest;
        if Unsettled(operations[o].state) {
          return true;
        }
        rest := rest - {o};
      }
      found := false;
    }

    /** The reservation transaction of an action. The business call happens after it, outside any
        transaction, and only when the action was started. */
    method Act(t: TaskId, id: OpId, content: Content, byAgent: bool, approved: bool, growth: bool)
      returns (result: Reservation)
      requires t in tasks
      modifies this
      ensures result == Reserve(old(tasks[t]), id, content, byAgent, approved,
                                UnsettledWrite(old(tasks), old(tasks[t]).project), growth)
      ensures tasks == if result.Registered? || result.Started? then old(tasks)[t := result.task] else old(tasks)
    {
      var value := tasks[t];
      var unsettledWrite := HasUnsettledWrite(value.project);
      if Stopped(value.state) {
        return Refused(Precondition);
      }
      if ContinuousAgent(value, byAgent)
         && !LevelAllowed(content.capability.level, value.execution.value.level) {
        return Refused(PermissionRequired);
      }
      var isNew := id !in value.operations;
      if !isNew {
        if value.operations[id].content != content {
          return Refused(Precondition);
        }
        if !(approved && value.operations[id].state == OpWaiting) {
          return Known;
        }
      } else {
        if !MayAdd(value, byAgent) {
          return Refused(Precondition);
        }
        value := value.(operations := value.operations[id := Operation(content, OpWaiting)]);
      }
      if content.capability.approval && !approved {
        value := value.(state := WaitingUser);
        if isNew && !growth {
          return Refused(Precondition);
        }
        tasks := tasks[t := value];
        return Registered(value);
      }
      if unsettledWrite {
        return Refused(Precondition);
      }
      value := value.With(id, OpRunning);
      value := value.(state := Running);
      if isNew && !growth {
        return Refused(Precondition);
      }
      tasks := tasks[t := value];
      return Started(value);
    }

    /** Records a result. Tells whether the task was already cancelled, so that a late success must still
        be passed on for cancellation. */
    method Settle(t: TaskId, id: OpId, state: OpState) returns (cleanup: bool)
      requires t in tasks && id in tasks[t].operations
      modifies this
      ensures tasks == old(tasks)[t := TaskRules.Settle(old(tasks[t]), id, state)]
      ensures cleanup <==> old(tasks[t]).state == Cancelled && state == OpSucceeded
    {
      var value := tasks[t];
      value := value.With(id, state);
      cleanup := value.state == Cancelled && state == OpSucceeded;
      var next := if state == OpFailed && value.state != Paused && value.state != Cancelled then Blocked
      else NextState(value);
      value := value.(state := next);
      tasks := tasks[t := value];
    }

    method Decline(t: TaskId, id: OpId) returns (declined: bool)
      requires t in tasks && id in tasks[t].operations
      modifies this
      ensures tasks == Updated(old(tasks), t, TaskRules.Decline(old(tasks[t]), id))
      ensures declined == TaskRules.Decline(old(tasks[t]), id).Some?
    {
      declined := tasks[t].operations[id].state == OpWaiting;
      if declined {
        var cleanup := Settle(t, id, OpDeclined);
      }
    }

    method Control(t: TaskId, action: Action, businessDone: bool) returns (accepted: bool)
      requires t in tasks
      modifies this
      ensures tasks == Updated(old(tasks), t, TaskRules.Control(old(tasks[t]), action, businessDone))
      ensures accepted == TaskRules.Control(old(tasks[t]), action, businessDone).Some?
    {
      var value := tasks[t];
      if value.state == Cancelled || value.state == Completed {
        return false;
      }
      match action {
        case Finish =>
          if !FinishAllowed(value, false, businessDone) {
            return false;
          }
          value := value.(state := Completed);
        case FinishFulfilled =>
          if !FinishAllowed(value, true, businessDone) {
            return false;
          }
          if value.execution.Some? {
            value := value.(execution := Some(value.execution.value.(state := ExFinished)));
          }
          value := value.(state := Completed);
        case Resume =>
          value := value.(state := WaitingAgent);
          value := value.(state := NextState(value));
        case Pause =>
          value := value.(state := Paused);
        case Cancel =>
          value := value.(state := Cancelled);
      }
      tasks := tasks[t := value];
      return true;
    }

    method ExecutionStarted(t: TaskId, execution: Execution) returns (accepted: bool)
      requires t in tasks
      modifies this
      ensures tasks == Updated(old(tasks), t, Start(old(tasks[t]), execution))
      ensures accepted <==> old(tasks[t]).state in {WaitingAgent, WaitingUser, Running, Blocked}
      ensures accepted ==> tasks[t].execution == Some(execution)
    {
      var value := tasks[t];
      if Stopped(value.state) {
        return false;
      }
      value := value.(execution := Some(execution));
      value := value.(state := NextState(value));
      tasks := tasks[t := value];
      return true;
    }

    method ExecutionProgress(t: TaskId, operationId: OpId, state: ExecutionState, note: string)
      requires t in tasks
      modifies this
      ensures tasks == Updated(old(tasks), t, Progress(old(tasks[t]), operationId, state, note))
    {
      var value := tasks[t];
      if value.execution.None? || value.execution.value.operationId != operationId {
        return;
      }
      if value.execution.value.state == state && value.execution.value.note == note {
        return;
      }
      value := value.(execution := Some(value.execution.value.(state := state, note := note)));
      value := value.(state := NextState(value));
      tasks := tasks[t := value];
    }

    method Ask(t: TaskId, id: string, text: string, growth: bool) returns (r: Addition)
      requires t in tasks
      modifies this
      ensures tasks == Updated(old(tasks), t, TaskRules.Ask(old(tasks[t]), id, text, growth))
      ensures r.Added? <==>
                && old(tasks[t]).state in {WaitingAgent, WaitingUser, Running, Blocked}
                && id !in old(tasks[t]).questions && |old(tasks[t]).questions| <= 511 && growth
      ensures r.Added? ==>
                tasks[t] == old(tasks[t]).(questions := old(tasks[t]).questions[id := Question(text, false)],
                                           state := WaitingUser)
      ensures r.AlreadyThere? <==>
                && !Stopped(old(tasks[t]).state) && id in old(tasks[t]).questions
                && old(tasks[t]).questions[id].text == text
    {
      var value := tasks[t];
      if Stopped(value.state) {
        return Rejected;
      }
      if id in value.questions {
        return if value.questions[id].text != text then Rejected else AlreadyThere;
      }
      if |value.questions| >= 512 {
        return Rejected;
      }
      value := value.(questions := value.questions[id := Question(text, false)]);
      value := value.(state := WaitingUser);
      if !growth {
        return Rejected;
      }
      tasks := tasks[t := value];
      return Added;
    }

    method Answer(t: TaskId, id: string) returns (accepted: bool)
      requires t in tasks
      modifies this
      ensures tasks == Updated(old(tasks), t, TaskRules.Answer(old(tasks[t]), id))
      ensures accepted <==>
                old(tasks[t]).state in {WaitingAgent, WaitingUser, Running, Blocked} && id in old(tasks[t]).questions
      ensures accepted ==> tasks[t].questions == old(tasks[t]).questions[id := tasks[t].questions[id]]
                           && tasks[t].questions[id] == Question(old(tasks[t]).questions[id].text, true)
    {
      var value := tasks[t];
      if Stopped(value.state) || id !in value.questions {
        return false;
      }
      value := value.(questions := value.questions[id := value.questions[id].(answered := true)]);
      value := value.(state := NextState(value));
      tasks := tasks[t := value];
      return true;
    }

    method Followup(t: TaskId, id: OpId, goal: string, growth: bool) returns (r: Addition)
      requires t in tasks
      modifies this
      ensures tasks == Updated(old(tasks), t, TaskRules.Followup(old(tasks[t]), id, goal, growth))
      ensures r.Added? <==>
                && old(tasks[t]).state != Cancelled && old(tasks[t]).state != Completed
                && id !in old(tasks[t]).followups && |old(tasks[t]).followups| <= 127 && growth
      ensures r.Added? ==> tasks[t].goal == goal && tasks[t].outcome.None? && tasks[t].followups.Keys
                           == old(tasks[t]).followups.Keys + {id}
      ensures r.AlreadyThere? <==> id in old(tasks[t]).followups && old(tasks[t]).followups[id] == goal
    {
      var value := tasks[t];
      if id in value.followups {
        return if value.followups[id] != goal then Rejected else AlreadyThere;
      }
      if value.state == Cancelled || value.state == Completed || |value.followups| >= 128 {
        return Rejected;
      }
      value := value.(followups := value.followups[id := goal]);
      value := value.(goal := goal, outcome := None);
      value := value.(state := NextState(value));
      if !growth {
        return Rejected;
      }
      tasks := tasks[t := value];
      return Added;
    }

    method Publish(t: TaskId, outcome: Outcome)
      requires t in tasks
      modifies this
      ensures tasks == Updated(old(tasks), t, TaskRules.Publish(old(tasks[t]), outcome))
    {
      var value := tasks[t];
      if value.goal == outcome.goal && value.outcome != Some(outcome) {
        value := value.(outcome := Some(outcome));
        tasks := tasks[t := value];
      }
    }

    /** Claims a turn under the same lock as pausing and ending: a committed stop is never overtaken. */
    method ClaimTurn(t: TaskId, operationId: OpId, turn: nat) returns (claimed: bool)
      requires t in tasks
      modifies this
      ensures tasks == Updated(old(tasks), t, TaskRules.ClaimTurn(old(tasks[t]), operationId, turn))
      ensures claimed == TaskRules.ClaimTurn(old(tasks[t]), operationId, turn).Some?
      ensures claimed ==>
                && !Stopped(old(tasks[t]).state) && !Stopped(tasks[t].state)
                && old(tasks[t]).execution.value.operationId == operationId
                && tasks[t].execution
                   == Some(old(tasks[t]).execution.value.(state := ExRunning, turnCount := turn))
    {
      var value := tasks[t];
      if Stopped(value.state) || value.execution.None? || value.execution.value.operationId != operationId {
        return false;
      }
      value := value.(execution := Some(value.execution.value.(state := ExRunning, turnCount := turn)));
      value := value.(state := NextState(value));
      tasks := tasks[t := value];
      return true;
    }

    /** After a restart: every active task with a running or waiting turn is marked for checking. */
    method RecoverExecutions()
      modifies this
      ensures tasks.Keys == old(tasks).Keys
      ensures forall t | t in tasks :: tasks[t] == Recover(old(tasks)[t])
    {
      var rest := set t | t in tasks && tasks[t].state != Completed && tasks[t].state != Cancelled;
      while rest != {}
        invariant rest <= tasks.Keys == old(tasks).Keys
        invariant forall t | t in rest ::
                    tasks[t] == old(tasks)[t] && tasks[t].state != Completed && tasks[t].state != Cancelled
        invariant forall t | t in tasks && t !in rest :: tasks[t] == Recover(old(tasks)[t])
        decreases rest
      {
        var t :| t in rest;
        var value := tasks[t];
        if value.execution.Some? && value.execution.value.state in {ExRunning, ExWaiting} {
          value := value.(execution := Some(value.execution.value.(state := ExUnknown)));
          if value.state != Paused && value.state != Cancelled {
            value := value.(state := Blocked);
          }
          tasks := tasks[t := value];
        }
        rest := rest - {t};
      }
    }
  }
}
