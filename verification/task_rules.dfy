/** The rules of one collaboration task: what each transaction makes of the stored task value.

    A transaction takes the write lock, reads the task, changes it and saves it, so its effect is a
    function of the stored value. These functions are the reference for the store that performs the
    transactions and for the protocol in which they interleave.
 */
module TaskRules {
  import opened Collections

  type TaskId = string
  type ProjectId = string
  type OpId = string

  /** What a capability does to the application; one that is outside the levels is not for agents. */
  datatype Level = Prepare | Execute | Outside

  /** What the user granted the agent when it was started. */
  datatype Granted = ReadOnly | Preparing | Executing

  datatype Capability = Capability(name: string, approval: bool, level: Level)

  /** What an operation asks for; operations are recognised by it, as by an injective digest. */
  datatype Content = Content(capability: Capability, arguments: string)

  datatype OpState = OpWaiting | OpRunning | OpUnknown | OpSucceeded | OpFailed | OpDeclined

  datatype Operation = Operation(content: Content, state: OpState)

  datatype Question = Question(text: string, answered: bool)

  datatype ExecutionState = ExRunning | ExWaiting | ExUnknown | ExFinished | ExOther

  datatype Execution = Execution(operationId: OpId, state: ExecutionState, turnCount: nat, continuous: bool,
                                 level: Granted, baseline: nat, note: string)

  datatype Outcome = Outcome(fulfilled: bool, goal: string)

  datatype TaskState = WaitingAgent | WaitingUser | Running | Blocked | Paused | Cancelled | Completed

  datatype Task = Task(project: ProjectId, state: TaskState, operations: map<OpId, Operation>,
                       questions: map<string, Question>, execution: Option<Execution>, request: string,
                       goal: string, outcome: Option<Outcome>, followups: map<OpId, string>)
  {
    function With(id: OpId, state: OpState): (t: Task)
      requires id in operations
    {
      this.(operations := operations[id := operations[id].(state := state)])
    }
  }

  predicate Stopped(state: TaskState) {
    state.Paused? || state.Cancelled? || state.Completed?
  }

  predicate Unsettled(state: OpState) {
    state.OpRunning? || state.OpUnknown?
  }

  predicate AnyUnsettled(t: Task) {
    exists o | o in t.operations :: Unsettled(t.operations[o].state)
  }

  predicate AnyWaiting(t: Task) {
    exists o | o in t.operations :: t.operations[o].state == OpWaiting
  }

  predicate AnyUnanswered(t: Task) {
    exists q | q in t.questions :: !t.questions[q].answered
  }

  predicate AgentRunning(t: Task) {
    t.execution.Some? && t.execution.value.state == ExRunning
  }

  /** Where the task stands once its current facts are taken into account. */
  function NextState(t: Task): TaskState {
    if Stopped(t.state) then t.state
    else if AnyUnsettled(t) then Blocked
    else if AnyWaiting(t) || AnyUnanswered(t) then WaitingUser
    else if AgentRunning(t) then Running
    else WaitingAgent
  }

  function Advance(t: Task): Task {
    t.(state := NextState(t))
  }

  // ---------------------------------------------------------------------------------------------
  // Transactions

  function NewTask(project: ProjectId, goal: string): Task {
    Task(project, WaitingAgent, map[], map[], None, goal, goal, None, map[])
  }

  /** What becomes of something that is added under an id of the client: added, there already with the same
      content, or rejected. */
  datatype Addition = Added | AlreadyThere | Rejected

  /** Reserving an action: refused, already known, registered for review, or started. */
  datatype Reservation = Refused(why: Reason) | Known | Registered(task: Task) | Started(task: Task)

  /** The error a refusal is reported with. */
  datatype Reason = Precondition | PermissionRequired

  /** The levels agents can be granted, by rank. */
  function LevelRank(level: Level): Option<nat> {
    match level
    case Prepare => Some(1)
    case Execute => Some(2)
    case Outside => None
  }

  function GrantRank(granted: Granted): nat {
    match granted
    case ReadOnly => 0
    case Preparing => 1
    case Executing => 2
  }

  predicate LevelAllowed(needed: Level, granted: Granted) {
    LevelRank(needed).Some? && LevelRank(needed).value <= GrantRank(granted)
  }

  predicate ContinuousAgent(t: Task, byAgent: bool) {
    t.execution.Some? && t.execution.value.continuous && byAgent
  }

  /** The agent's authorisation and the size limits; `growth` says whether the task text may still grow. */
  predicate MayAdd(t: Task, byAgent: bool) {
    && (ContinuousAgent(t, byAgent) ==> |t.operations| - t.execution.value.baseline < 128)
    && |t.operations| < 512
  }

  function Reserve(t: Task, id: OpId, content: Content, byAgent: bool, approved: bool,
                   unsettledWrite: bool, growth: bool): Reservation
  {
    if Stopped(t.state) then Refused(Precondition)
    else if ContinuousAgent(t, byAgent) && !LevelAllowed(content.capability.level, t.execution.value.level)
    then Refused(PermissionRequired)
    else if id in t.operations && t.operations[id].content != content then Refused(Precondition)
    else if id in t.operations && !(approved && t.operations[id].state == OpWaiting) then Known
    else if id !in t.operations && !MayAdd(t, byAgent) then Refused(Precondition)
    else
      var added := if id in t.operations then t
                   else t.(operations := t.operations[id := Operation(content, OpWaiting)]);
      if content.capability.approval && !approved then
        if growth then Registered(added.(state := WaitingUser)) else Refused(Precondition)
      else if unsettledWrite then Refused(Precondition)
      else if id !in t.operations && !growth then Refused(Precondition)
      else Started(added.With(id, OpRunning).(state := Running))
  }

  /** A result arriving for an operation; it is recorded whatever the operation's state has become. */
  function Settle(t: Task, id: OpId, state: OpState): Task
    requires id in t.operations
  {
    var recorded := t.With(id, state);
    recorded.(state := if state == OpFailed && t.state != Paused && t.state != Cancelled then Blocked
                       else NextState(recorded))
  }

  function Decline(t: Task, id: OpId): Option<Task>
    requires id in t.operations
  {
    if t.operations[id].state != OpWaiting then None else Some(Settle(t, id, OpDeclined))
  }

  datatype Action = Finish | FinishFulfilled | Resume | Pause | Cancel

  predicate FinishAllowed(t: Task, fulfilled: bool, businessDone: bool) {
    && (fulfilled ==> t.outcome.Some? && t.outcome.value.fulfilled && t.outcome.value.goal == t.goal)
    && !AnyUnsettled(t) && !AgentRunning(t) && !AnyWaiting(t) && !AnyUnanswered(t)
    && businessDone
  }

  function Control(t: Task, action: Action, businessDone: bool): Option<Task> {
    if t.state == Cancelled || t.state == Completed then None
    else match action
      case Finish =>
        if FinishAllowed(t, false, businessDone) then Some(t.(state := Completed)) else None
      case FinishFulfilled =>
        if FinishAllowed(t, true, businessDone)
        then Some(t.(state := Completed, execution := if t.execution.None? then None
                                                      else Some(t.execution.value.(state := ExFinished))))
        else None
      case Resume => Some(Advance(t.(state := WaitingAgent)))
      case Pause => Some(t.(state := Paused))
      case Cancel => Some(t.(state := Cancelled))
  }

  function Start(t: Task, execution: Execution): Option<Task> {
    if Stopped(t.state) then None else Some(Advance(t.(execution := Some(execution))))
  }

  /** Progress of a turn, a new state or a new note; a message from an execution that is no longer current
      changes nothing. */
  function Progress(t: Task, operationId: OpId, state: ExecutionState, note: string): Option<Task> {
    if t.execution.None? || t.execution.value.operationId != operationId then None
    else if t.execution.value.state == state && t.execution.value.note == note then None
    else Some(Advance(t.(execution := Some(t.execution.value.(state := state, note := note)))))
  }

  function ClaimTurn(t: Task, operationId: OpId, turn: nat): Option<Task> {
    if Stopped(t.state) || t.execution.None? || t.execution.value.operationId != operationId then None
    else Some(Advance(t.(execution := Some(t.execution.value.(state := ExRunning, turnCount := turn)))))
  }

  /** What a restart makes of an unfinished task: its turn can no longer be vouched for. */
  function Recover(t: Task): Task {
    if t.state == Completed || t.state == Cancelled then t
    else if t.execution.Some? && (t.execution.value.state == ExRunning || t.execution.value.state == ExWaiting)
    then t.(execution := Some(t.execution.value.(state := ExUnknown)),
            state := if t.state == Paused then Paused else Blocked)
    else t
  }

  function Ask(t: Task, id: string, text: string, growth: bool): Option<Task> {
    if Stopped(t.state) || id in t.questions || |t.questions| >= 512 || !growth then None
    else Some(t.(questions := t.questions[id := Question(text, false)], state := WaitingUser))
  }

  function Answer(t: Task, id: string): Option<Task> {
    if Stopped(t.state) || id !in t.questions then None
    else Some(Advance(t.(questions := t.questions[id := t.questions[id].(answered := true)])))
  }

  function Followup(t: Task, id: OpId, goal: string, growth: bool): Option<Task> {
    if id in t.followups || t.state == Cancelled || t.state == Completed || |t.followups| >= 128 || !growth then None
    else Some(Advance(t.(followups := t.followups[id := goal], goal := goal, outcome := None)))
  }

  /** An assessed outcome is published only for the goal it was assessed against. */
  function Publish(t: Task, outcome: Outcome): Option<Task> {
    if t.goal != outcome.goal || t.outcome == Some(outcome) then None else Some(t.(outcome := Some(outcome)))
  }
}
