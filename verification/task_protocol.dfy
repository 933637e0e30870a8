/** The collaboration protocol: transactions, business calls, late results, reconciliation, cancellation
    and crashes, interleaved in any order.

    Every event is one atomic step. A business call spans two of them: the transaction that reserves it
    and the settling of what it returned. A reconciliation and a cancellation span two as well, because
    each acts on what it read in an earlier transaction. A run is any sequence of events.
 */
module TaskProtocol {
  import opened Collections
  import opened TaskRules
  import opened TaskStore

  type Key = (TaskId, OpId)

  datatype Flight = Invoking | Returned(outcome: OpState)

  /** A call of cancel_owned that still has to be made, on a task's operations as they were read. */
  datatype Cancellation = Cancellation(task: TaskId, operations: set<OpId>, receipts: set<OpId>)

  datatype World = World(
    tasks: map<TaskId, Task>,
    flights: map<Key, Flight>,            // business calls whose result is not recorded yet
    reconciling: multiset<Key>,           // reconciliations holding a receipt
    cancelling: multiset<Cancellation>,   // cancellations not carried out yet
    // what has happened so far
    invoked: multiset<Key>,               // business calls made
    accepted: set<Key>,                   // operations the user decided to accept
    succeeded: set<Key>,                  // operations that ever were SUCCEEDED
    handed: set<Key>,                     // operations passed to cancel_owned
    handedReceipts: set<Key>,             // ... while they held a receipt
    lost: set<Key>,                       // operations whose pending cancellation a crash dropped
    overtaken: set<Key>)                  // operations reconciled while their own call was outstanding

  const Init := World(map[], map[], multiset{}, multiset{}, multiset{}, {}, {}, {}, {}, {}, {})

  datatype Event =
    | Create(t: TaskId, project: ProjectId, goal: string)
    | ExecutionStarted(t: TaskId, execution: Execution)
    | ExecutionProgress(t: TaskId, operationId: OpId, exState: ExecutionState, note: string)
    | Claim(t: TaskId, operationId: OpId, turn: nat)
    | AskUser(t: TaskId, id: string, text: string, growth: bool)
    | AnswerAgent(t: TaskId, id: string)
    | AddGoal(t: TaskId, id: OpId, goal: string, growth: bool)
    | Assess(t: TaskId, assessment: Outcome)
    | Act(t: TaskId, id: OpId, content: Content, byAgent: bool, growth: bool)
    | Accept(t: TaskId, id: OpId, growth: bool)
    | Refuse(t: TaskId, id: OpId)
    | Return(key: Key, outcome: OpState)
    | Record(key: Key)
    | ReadReceipt(key: Key)
    | Reconcile(key: Key)
    | ControlTask(t: TaskId, action: Action, businessDone: bool)
    | RepeatCancel(t: TaskId)
    | CancelOwned(cancellation: Cancellation)
    | Crash

  predicate HasOp(w: World, k: Key) {
    k.0 in w.tasks && k.1 in w.tasks[k.0].operations
  }

  function OpAt(w: World, k: Key): Operation
    requires HasOp(w, k)
  {
    w.tasks[k.0].operations[k.1]
  }

  function StateAt(w: World, k: Key): OpState
    requires HasOp(w, k)
  {
    OpAt(w, k).state
  }

  // ---------------------------------------------------------------------------------------------
  // Steps

  function Save(w: World, t: TaskId, value: Option<Task>): World {
    w.(tasks := Updated(w.tasks, t, value))
  }

  ghost function ActStep(w: World, t: TaskId, id: OpId, content: Content, byAgent: bool, approved: bool,
      growth: bool): World
    requires t in w.tasks
  {
    var unsettled := UnsettledWrite(w.tasks, w.tasks[t].project);
    var result := Reserve(w.tasks[t], id, content, byAgent, approved, unsettled, growth);
    match result
    case Registered(task) => w.(tasks := w.tasks[t := task])
    case Started(task) =>
      w.(tasks := w.tasks[t := task], flights := w.flights[(t, id) := Invoking],
         invoked := w.invoked + multiset{(t, id)})
    case _ => w
  }

  function Receipts(task: Task): set<OpId> {
    set o | o in task.operations && task.operations[o].state == OpSucceeded
  }

  /** A result is recorded; a success of an already cancelled task still has to be handed over. */
  function Arrive(w: World, k: Key, outcome: OpState): World
    requires HasOp(w, k)
  {
    var late := w.tasks[k.0].state == Cancelled && outcome == OpSucceeded;
    w.(tasks := w.tasks[k.0 := Settle(w.tasks[k.0], k.1, outcome)],
       succeeded := if outcome == OpSucceeded then w.succeeded + {k} else w.succeeded,
       cancelling := if late then w.cancelling + multiset{Cancellation(k.0, {k.1}, {k.1})} else w.cancelling)
  }

  function CancelAll(w: World, t: TaskId): World
    requires t in w.tasks
  {
    w.(cancelling := w.cancelling + multiset{Cancellation(t, w.tasks[t].operations.Keys, Receipts(w.tasks[t]))})
  }

  function Pairs(t: TaskId, ops: set<OpId>): set<Key> {
    set o | o in ops :: (t, o)
  }

  function Dropped(cancelling: multiset<Cancellation>): set<Key> {
    set c, o | c in cancelling && o in c.operations :: (c.task, o)
  }

  function CrashStep(w: World): World {
    w.(tasks := map t | t in w.tasks :: Recover(w.tasks[t]),
       flights := map[], reconciling := multiset{}, cancelling := multiset{},
       lost := w.lost + Dropped(w.cancelling))
  }

  /** Events that change one task without touching its operations. */
  predicate Administrative(e: Event) {
    e.ExecutionStarted? || e.ExecutionProgress? || e.Claim? || e.AskUser? || e.AnswerAgent? || e.AddGoal? || e.Assess?
  }

  function TaskUpdate(task: Task, e: Event): Option<Task>
    requires Administrative(e)
  {
    match e
    case ExecutionStarted(_, execution) => Start(task, execution)
    case ExecutionProgress(_, operationId, exState, note) => Progress(task, operationId, exState, note)
    case Claim(_, operationId, turn) => ClaimTurn(task, operationId, turn)
    case AskUser(_, id, text, growth) => Ask(task, id, text, growth)
    case AnswerAgent(_, id) => Answer(task, id)
    case AddGoal(_, id, goal, growth) => Followup(task, id, goal, growth)
    case Assess(_, assessment) => Publish(task, assessment)
  }

  ghost function AcceptStep(w: World, t: TaskId, id: OpId, growth: bool): World {
    if HasOp(w, (t, id))
    then ActStep(w.(accepted := w.accepted + {(t, id)}), t, id, OpAt(w, (t, id)).content, false, true, growth)
    else w
  }

  predicate MayRecord(w: World, k: Key) {
    k in w.flights && w.flights[k].Returned? && HasOp(w, k)
  }

  function RecordStep(w: World, k: Key): World
    requires MayRecord(w, k)
  {
    Arrive(w.(flights := w.flights - {k}), k, w.flights[k].outcome)
  }

  predicate MayReconcile(w: World, k: Key) {
    k in w.reconciling && HasOp(w, k)
  }

  function ReconcileStep(w: World, k: Key): World
    requires MayReconcile(w, k)
  {
    Arrive(w.(reconciling := w.reconciling - multiset{k},
              overtaken := if k in w.flights then w.overtaken + {k} else w.overtaken), k, OpSucceeded)
  }

  function ControlStep(w: World, t: TaskId, action: Action, businessDone: bool): World {
    if t in w.tasks && Control(w.tasks[t], action, businessDone).Some?
    then var saved := Save(w, t, Control(w.tasks[t], action, businessDone));
         if action == Cancel then CancelAll(saved, t) else saved
    else w
  }

  function RepeatCancelStep(w: World, t: TaskId): World {
    if t in w.tasks && w.tasks[t].state == Cancelled
    then CancelAll(w.(lost := w.lost - Pairs(t, w.tasks[t].operations.Keys)), t)
    else w
  }

  function CancelOwnedStep(w: World, c: Cancellation): World {
    if c in w.cancelling
    then w.(cancelling := w.cancelling - multiset{c},
            handed := w.handed + Pairs(c.task, c.operations),
            handedReceipts := w.handedReceipts + Pairs(c.task, c.receipts))
    else w
  }

  /** One event; an event that is not enabled changes nothing. */
  ghost function Step(w: World, e: Event): World {
    if Administrative(e) then (if e.t in w.tasks then Save(w, e.t, TaskUpdate(w.tasks[e.t], e)) else w)
    else match e
      case Create(t, project, goal) => if t in w.tasks then w else Save(w, t, Some(NewTask(project, goal)))
      case Act(t, id, content, byAgent, growth) =>
        if t in w.tasks then ActStep(w, t, id, content, byAgent, false, growth) else w
      case Accept(t, id, growth) => AcceptStep(w, t, id, growth)
      case Refuse(t, id) => if HasOp(w, (t, id)) then Save(w, t, Decline(w.tasks[t], id)) else w
      case Return(k, outcome) =>
        if k in w.flights && w.flights[k] == Invoking && outcome in {OpSucceeded, OpFailed, OpUnknown}
        then w.(flights := w.flights[k := Returned(outcome)])
        else w
      case Record(k) => if MayRecord(w, k) then RecordStep(w, k) else w
      case ReadReceipt(k) =>
        if HasOp(w, k) && Unsettled(StateAt(w, k)) then w.(reconciling := w.reconciling + multiset{k}) else w
      case Reconcile(k) => if MayReconcile(w, k) then ReconcileStep(w, k) else w
      case ControlTask(t, action, businessDone) => ControlStep(w, t, action, businessDone)
      case RepeatCancel(t) => RepeatCancelStep(w, t)
      case CancelOwned(c) => CancelOwnedStep(w, c)
      case Crash => CrashStep(w)
  }

  ghost function Run(w: World, events: seq<Event>): World
    decreases |events|
  {
    if events == [] then w else Run(Step(w, events[0]), events[1..])
  }

  // ---------------------------------------------------------------------------------------------
  // What every step keeps

  predicate ResultState(flight: Flight) {
    flight.Returned? ==> flight.outcome in {OpSucceeded, OpFailed, OpUnknown}
  }

  /** An operation's business call has been made, once, exactly when the operation is neither waiting nor
      declined; only such operations have anything outstanding. */
  ghost predicate InvokedOnce(w: World) {
    InvokedByState(w) && OutstandingInvoked(w)
  }

  ghost predicate InvokedByState(w: World) {
    && (forall k | k in w.invoked :: HasOp(w, k))
    && (forall k | HasOp(w, k) :: k in w.invoked <==> !(StateAt(w, k) == OpWaiting || StateAt(w, k) == OpDeclined))
  }

  ghost predicate OutstandingInvoked(w: World) {
    && (forall k :: w.invoked[k] <= 1)
    && (forall k | k in w.flights :: k in w.invoked && ResultState(w.flights[k]))
    && (forall k | k in w.reconciling :: k in w.invoked)
  }

  /** A capability that needs the user's approval is only invoked for an operation the user accepted. */
  ghost predicate InvokedByApproval(w: World) {
    forall k | k in w.invoked && HasOp(w, k) && OpAt(w, k).content.capability.approval :: k in w.accepted
  }

  ghost predicate Idle(t: Task) {
    !AnyUnsettled(t) && !AnyWaiting(t) && !AnyUnanswered(t) && !AgentRunning(t)
  }

  /** The agent is only waited for when nothing else is open. */
  ghost predicate WaitingAgentIsIdle(w: World) {
    forall t | t in w.tasks && w.tasks[t].state == WaitingAgent :: Idle(w.tasks[t])
  }

  ghost predicate PendingHandover(w: World, k: Key) {
    exists c | c in w.cancelling :: c.task == k.0 && k.1 in c.operations
  }

  ghost predicate PendingReceipt(w: World, k: Key) {
    exists c | c in w.cancelling :: c.task == k.0 && k.1 in c.receipts
  }

  /** Nothing that succeeded in a cancelled task is forgotten. */
  ghost predicate Covered(w: World) {
    && (forall c | c in w.cancelling :: c.receipts <= c.operations)
    && (forall k | k in w.succeeded :: HasOp(w, k))
    && (forall k | HasOp(w, k) && StateAt(w, k) == OpSucceeded :: k in w.succeeded)
    && (forall k | k in w.succeeded && HasOp(w, k) && w.tasks[k.0].state == Cancelled ::
          k in w.handed || PendingHandover(w, k) || k in w.lost)
    && (forall k | HasOp(w, k) && StateAt(w, k) == OpSucceeded && w.tasks[k.0].state == Cancelled ::
          k in w.handedReceipts || PendingReceipt(w, k) || k in w.lost)
  }

  /** Apart from operations a reconciliation overtook: an outstanding call is recorded as running, a success
      is final, a completed task has nothing unsettled, and at most one operation of a project is unsettled. */
  ghost predicate Orderly(w: World) {
    && (forall k | k in w.flights && k !in w.overtaken && HasOp(w, k) :: StateAt(w, k) == OpRunning)
    && (forall k | k in w.succeeded && k !in w.overtaken && HasOp(w, k) :: StateAt(w, k) == OpSucceeded)
    && (forall k | HasOp(w, k) && k !in w.overtaken && w.tasks[k.0].state == Completed :: !Unsettled(StateAt(w, k)))
    && (forall k, l | Clash(w, k, l) :: k in w.overtaken || l in w.overtaken)
  }

  /** Two different unsettled operations of one project. */
  ghost predicate Clash(w: World, k: Key, l: Key) {
    && k != l && HasOp(w, k) && HasOp(w, l) && w.tasks[k.0].project == w.tasks[l.0].project
    && Unsettled(StateAt(w, k)) && Unsettled(StateAt(w, l))
  }

  ghost predicate Invariant(w: World) {
    InvokedOnce(w) && InvokedByApproval(w) && WaitingAgentIsIdle(w) && Covered(w) && Orderly(w)
  }

  // ---------------------------------------------------------------------------------------------
  // The effect of each kind of step

  /** The operations stay, and the task is neither ended nor brought back. */
  predicate QuietTask(t: Task, u: Task) {
    && u.operations == t.operations && u.project == t.project
    && (u.state == Cancelled <==> t.state == Cancelled)
    && (u.state == Completed <==> t.state == Completed)
    && (t.state == Paused ==> u.state == Paused)
  }

  /** Only task fields other than the operations change, and no task is ended. */
  ghost predicate Quiet(w: World, v: World) {
    && v == w.(tasks := v.tasks)
    && w.tasks.Keys <= v.tasks.Keys
    && (forall t | t in w.tasks :: QuietTask(w.tasks[t], v.tasks[t]))
    && (forall t | t in v.tasks && t !in w.tasks :: v.tasks[t].operations == map[])
  }

  lemma AdministrativeIsQuiet(task: Task, e: Event)
    requires Administrative(e) && TaskUpdate(task, e).Some?
    ensures QuietTask(task, TaskUpdate(task, e).value)
  {
  }

  lemma AdministrativeStepIsQuiet(w: World, t: TaskId, e: Event)
    requires Administrative(e) && t in w.tasks
    ensures Quiet(w, Save(w, t, TaskUpdate(w.tasks[t], e)))
  {
    if TaskUpdate(w.tasks[t], e).Some? {
      AdministrativeIsQuiet(w.tasks[t], e);
    }
  }

  lemma CreationIsQuiet(w: World, t: TaskId, project: ProjectId, goal: string)
    requires t !in w.tasks
    ensures Quiet(w, Save(w, t, Some(NewTask(project, goal))))
  {
  }

  lemma QuietStep(w: World, e: Event)
    requires Administrative(e) || e.Create?
    ensures Quiet(w, Step(w, e))
  {
    if e.Create? {
      if e.t !in w.tasks {
        CreationIsQuiet(w, e.t, e.project, e.goal);
      }
    } else if e.t in w.tasks {
      AdministrativeStepIsQuiet(w, e.t, e);
    }
  }

  lemma QuietOps(w: World, v: World)
    requires Quiet(w, v)
    ensures forall k :: HasOp(v, k) <==> HasOp(w, k)
    ensures forall k | HasOp(w, k) :: OpAt(v, k) == OpAt(w, k) && StateAt(v, k) == StateAt(w, k)
    ensures forall k | HasOp(w, k) :: QuietTask(w.tasks[k.0], v.tasks[k.0])
  {
  }

  lemma QuietKeepsInvoked(w: World, v: World)
    requires Quiet(w, v)
    ensures InvokedOnce(w) ==> InvokedOnce(v)
    ensures InvokedByApproval(w) ==> InvokedByApproval(v)
  {
    QuietOps(w, v);
  }

  lemma QuietKeepsCovered(w: World, v: World)
    requires Quiet(w, v) && Covered(w)
    ensures Covered(v)
  {
    QuietOps(w, v);
    forall k ensures PendingHandover(v, k) == PendingHandover(w, k) && PendingReceipt(v, k) == PendingReceipt(w, k) {
    }
  }

  lemma QuietKeepsOrderly(w: World, v: World)
    requires Quiet(w, v) && Orderly(w)
    ensures Orderly(v)
  {
    QuietOps(w, v);
    forall k, l | Clash(v, k, l) ensures Clash(w, k, l) {
    }
  }

  // ---------------------------------------------------------------------------------------------
  // Steps that change one operation

  /** Operation k becomes op; everything else about the operations stays. */
  ghost predicate Put(w: World, v: World, k: Key, op: Operation) {
    && k.0 in w.tasks && v.tasks.Keys == w.tasks.Keys
    && (forall t | t in w.tasks && t != k.0 :: v.tasks[t] == w.tasks[t])
    && v.tasks[k.0].operations == w.tasks[k.0].operations[k.1 := op]
    && v.tasks[k.0].project == w.tasks[k.0].project
  }

  lemma PutOps(w: World, v: World, k: Key, op: Operation)
    requires Put(w, v, k, op)
    ensures HasOp(v, k) && OpAt(v, k) == op
    ensures forall l | l != k :: HasOp(v, l) <==> HasOp(w, l)
    ensures forall l | l != k && HasOp(w, l) :: OpAt(v, l) == OpAt(w, l) && StateAt(v, l) == StateAt(w, l)
    ensures forall l | HasOp(v, l) :: l.0 in w.tasks && v.tasks[l.0].project == w.tasks[l.0].project
  {
  }

  /** What a reservation does, in terms of its operation. */
  lemma ReserveEffect(t: Task, id: OpId, content: Content, byAgent: bool, approved: bool, unsettledWrite: bool,
      growth: bool)
    ensures var r := Reserve(t, id, content, byAgent, approved, unsettledWrite, growth);
            && (r.Registered? ==>
                  && !approved && !Stopped(t.state)
                  && id !in t.operations && r.task.operations == t.operations[id := Operation(content, OpWaiting)]
                  && r.task.project == t.project && r.task.state == WaitingUser)
            && (r.Started? ==>
                  && (content.capability.approval ==> approved) && !Stopped(t.state) && !unsettledWrite
                  && (id in t.operations ==> t.operations[id] == Operation(content, OpWaiting))
                  && r.task.operations == t.operations[id := Operation(content, OpRunning)]
                  && r.task.project == t.project && r.task.state == Running)
  {
  }

  /** A started operation was not there before or was waiting; its project had nothing unsettled. */
  ghost predicate Begun(w: World, v: World, k: Key, op: Operation) {
    && Put(w, v, k, op) && op.state == OpRunning
    && (HasOp(w, k) ==> OpAt(w, k) == op.(state := OpWaiting))
    && !Stopped(w.tasks[k.0].state) && v.tasks[k.0].state == Running
    && !UnsettledWrite(w.tasks, w.tasks[k.0].project)
    && v == w.(tasks := v.tasks, flights := w.flights[k := Invoking], invoked := w.invoked + multiset{k})
  }

  ghost predicate Listed(w: World, v: World, k: Key, op: Operation) {
    && Put(w, v, k, op) && op.state == OpWaiting && !HasOp(w, k)
    && !Stopped(w.tasks[k.0].state) && v.tasks[k.0].state == WaitingUser
    && v == w.(tasks := v.tasks)
  }

  lemma ActEffect(w: World, t: TaskId, id: OpId, content: Content, byAgent: bool, approved: bool, growth: bool)
    requires t in w.tasks
    ensures var v := ActStep(w, t, id, content, byAgent, approved, growth);
            || v == w
            || Listed(w, v, (t, id), Operation(content, OpWaiting))
            || (Begun(w, v, (t, id), Operation(content, OpRunning)) && (content.capability.approval ==> approved))
  {
    ReserveEffect(w.tasks[t], id, content, byAgent, approved, UnsettledWrite(w.tasks, w.tasks[t].project), growth);
  }

  lemma BegunKeepsInvoked(w: World, v: World, k: Key, op: Operation)
    requires Begun(w, v, k, op) && InvokedOnce(w)
    ensures InvokedOnce(v)
  {
    NotYetInvoked(w, v, k, op);
    FirstInvocation(w, v, k, op);
  }

  lemma FirstInvocation(w: World, v: World, k: Key, op: Operation)
    requires Put(w, v, k, op) && op.state == OpRunning && v.invoked == w.invoked + multiset{k}
    requires InvokedByState(w)
    ensures InvokedByState(v)
  {
    PutOps(w, v, k, op);
  }

  lemma NotYetInvoked(w: World, v: World, k: Key, op: Operation)
    requires Begun(w, v, k, op) && InvokedOnce(w)
    ensures k !in w.invoked
  {
    if HasOp(w, k) {
      assert StateAt(w, k) == OpWaiting;
    }
  }

  lemma ListedKeepsInvoked(w: World, v: World, k: Key, op: Operation)
    requires Listed(w, v, k, op) && InvokedOnce(w)
    ensures InvokedOnce(v)
  {
    PutOps(w, v, k, op);
  }

  lemma BegunKeepsApproval(w: World, v: World, k: Key, op: Operation)
    requires Begun(w, v, k, op) && InvokedByApproval(w)
    requires op.content.capability.approval ==> k in w.accepted
    ensures InvokedByApproval(v)
  {
    PutOps(w, v, k, op);
  }

  lemma ListedKeepsApproval(w: World, v: World, k: Key, op: Operation)
    requires Listed(w, v, k, op) && InvokedByApproval(w) && InvokedOnce(w)
    ensures InvokedByApproval(v)
  {
    PutOps(w, v, k, op);
  }

  lemma SamePending(w: World, v: World)
    requires v.cancelling == w.cancelling
    ensures forall k :: PendingHandover(v, k) == PendingHandover(w, k) && PendingReceipt(v, k) == PendingReceipt(w, k)
  {
    forall k ensures PendingHandover(v, k) == PendingHandover(w, k) && PendingReceipt(v, k) == PendingReceipt(w, k) {
    }
  }

  /** An operation that has not succeeded, of a task that is not cancelled, is waiting or running now. */
  lemma FreshOpKeepsCovered(w: World, v: World, k: Key, op: Operation)
    requires Put(w, v, k, op) && !op.state.OpSucceeded? && Covered(w)
    requires w.tasks[k.0].state != Cancelled && v.tasks[k.0].state != Cancelled
    requires v == w.(tasks := v.tasks, flights := v.flights, invoked := v.invoked)
    ensures Covered(v)
  {
    PutOps(w, v, k, op);
    SamePending(w, v);
  }

  lemma BegunKeepsOrderly(w: World, v: World, k: Key, op: Operation)
    requires Begun(w, v, k, op) && Covered(w) && Orderly(w)
    ensures Orderly(v)
  {
    PutOps(w, v, k, op);
    assert k !in w.succeeded || k in w.overtaken;
    forall l, m | Clash(v, l, m) ensures l in w.overtaken || m in w.overtaken {
      UnsettledOpIsSeen(w, l);
      UnsettledOpIsSeen(w, m);
      assert l != k && m != k ==> Clash(w, l, m);
    }
  }

  lemma UnsettledOpIsSeen(w: World, l: Key)
    ensures HasOp(w, l) && Unsettled(StateAt(w, l)) ==> UnsettledWrite(w.tasks, w.tasks[l.0].project)
  {
    if HasOp(w, l) && Unsettled(StateAt(w, l)) {
      assert AnyUnsettled(w.tasks[l.0]);
    }
  }

  lemma ListedKeepsOrderly(w: World, v: World, k: Key, op: Operation)
    requires Listed(w, v, k, op) && InvokedOnce(w) && Covered(w) && Orderly(w)
    ensures Orderly(v)
  {
    PutOps(w, v, k, op);
    forall l, m | Clash(v, l, m) ensures Clash(w, l, m) {
    }
  }

  /** A result arrives for k: recorded after its call, or brought by a reconciliation. */
  ghost predicate Arrived(w: World, v: World, k: Key, outcome: OpState) {
    && HasOp(w, k) && outcome in {OpSucceeded, OpFailed, OpUnknown}
    && Put(w, v, k, OpAt(w, k).(state := outcome))
    && (w.tasks[k.0].state == Cancelled <==> v.tasks[k.0].state == Cancelled)
    && (v.tasks[k.0].state == Completed ==> w.tasks[k.0].state == Completed)
    && v.invoked == w.invoked && v.accepted == w.accepted && v.lost == w.lost
    && v.handed == w.handed && v.handedReceipts == w.handedReceipts
    && v.succeeded == (if outcome == OpSucceeded then w.succeeded + {k} else w.succeeded)
    && v.cancelling == (if w.tasks[k.0].state == Cancelled && outcome == OpSucceeded
                        then w.cancelling + multiset{Cancellation(k.0, {k.1}, {k.1})} else w.cancelling)
  }

  lemma RecordArrives(w: World, k: Key)
    requires InvokedOnce(w) && MayRecord(w, k)
    ensures Arrived(w, RecordStep(w, k), k, w.flights[k].outcome)
  {
  }

  lemma ReconcileArrives(w: World, k: Key)
    requires MayReconcile(w, k)
    ensures Arrived(w, ReconcileStep(w, k), k, OpSucceeded)
  {
  }

  lemma ArrivedKeepsInvoked(w: World, v: World, k: Key, outcome: OpState)
    requires Arrived(w, v, k, outcome) && InvokedByState(w) && k in w.invoked
    ensures InvokedByState(v)
  {
    PutOps(w, v, k, OpAt(w, k).(state := outcome));
  }

  lemma ArrivedKeepsApproval(w: World, v: World, k: Key, outcome: OpState)
    requires Arrived(w, v, k, outcome) && InvokedByState(w) && InvokedByApproval(w)
    ensures InvokedByApproval(v)
  {
    PutOps(w, v, k, OpAt(w, k).(state := outcome));
    assert OpAt(v, k).content == OpAt(w, k).content;
  }

  lemma PendingGrows(w: World, v: World)
    requires forall c | c in w.cancelling :: c in v.cancelling
    ensures forall k ::
              (PendingHandover(w, k) ==> PendingHandover(v, k)) && (PendingReceipt(w, k) ==> PendingReceipt(v, k))
  {
    forall k ensures PendingHandover(w, k) ==> PendingHandover(v, k) {
      if PendingHandover(w, k) {
        var c :| c in w.cancelling && c.task == k.0 && k.1 in c.operations;
        assert c in v.cancelling;
      }
    }
    forall k ensures PendingReceipt(w, k) ==> PendingReceipt(v, k) {
      if PendingReceipt(w, k) {
        var c :| c in w.cancelling && c.task == k.0 && k.1 in c.receipts;
        assert c in v.cancelling;
      }
    }
  }

  lemma ArrivedIsPending(w: World, v: World, k: Key, outcome: OpState)
    requires Arrived(w, v, k, outcome)
    ensures forall l ::
              (PendingHandover(w, l) ==> PendingHandover(v, l)) && (PendingReceipt(w, l) ==> PendingReceipt(v, l))
    ensures w.tasks[k.0].state == Cancelled && outcome == OpSucceeded ==> PendingHandover(v, k) && PendingReceipt(v, k)
  {
    PendingGrows(w, v);
    if w.tasks[k.0].state == Cancelled && outcome == OpSucceeded {
      assert Cancellation(k.0, {k.1}, {k.1}) in v.cancelling;
    }
  }

  lemma ArrivedIsKnown(w: World, v: World, k: Key, outcome: OpState)
    requires Arrived(w, v, k, outcome) && Covered(w)
    ensures forall c | c in v.cancelling :: c.receipts <= c.operations
    ensures forall l | l in v.succeeded :: HasOp(v, l)
    ensures forall l | HasOp(v, l) && StateAt(v, l) == OpSucceeded :: l in v.succeeded
  {
    PutOps(w, v, k, OpAt(w, k).(state := outcome));
  }

  lemma ArrivedKeepsCovered(w: World, v: World, k: Key, outcome: OpState)
    requires Arrived(w, v, k, outcome) && Covered(w)
    ensures Covered(v)
  {
    PutOps(w, v, k, OpAt(w, k).(state := outcome));
    ArrivedIsKnown(w, v, k, outcome);
    ArrivedIsPending(w, v, k, outcome);
  }

  lemma ArrivedKeepsOrderly(w: World, v: World, k: Key, outcome: OpState)
    requires Arrived(w, v, k, outcome) && Orderly(w)
    requires w.overtaken <= v.overtaken && v.flights.Keys <= w.flights.Keys
    requires k in v.flights ==> k in v.overtaken
    requires outcome == OpSucceeded || (k in w.flights && k !in v.flights)
    ensures Orderly(v)
  {
    PutOps(w, v, k, OpAt(w, k).(state := outcome));
    forall l, m | Clash(v, l, m) ensures l in v.overtaken || m in v.overtaken {
      assert Clash(w, l, m) || k in v.overtaken;
    }
  }

  /** What a refusal does. */
  lemma Refused(w: World, t: TaskId, id: OpId)
    requires HasOp(w, (t, id)) && Decline(w.tasks[t], id).Some?
    ensures var v := Save(w, t, Decline(w.tasks[t], id));
            && Put(w, v, (t, id), OpAt(w, (t, id)).(state := OpDeclined)) && StateAt(w, (t, id)) == OpWaiting
            && v == w.(tasks := v.tasks)
            && (v.tasks[t].state == Cancelled <==> w.tasks[t].state == Cancelled)
            && (v.tasks[t].state == Completed <==> w.tasks[t].state == Completed)
  {
  }

  lemma RefusedKeepsInvoked(w: World, v: World, k: Key)
    requires HasOp(w, k) && StateAt(w, k) == OpWaiting && Put(w, v, k, OpAt(w, k).(state := OpDeclined))
    requires v == w.(tasks := v.tasks) && InvokedOnce(w) && InvokedByApproval(w)
    ensures InvokedOnce(v) && InvokedByApproval(v)
  {
    PutOps(w, v, k, OpAt(w, k).(state := OpDeclined));
    forall l | HasOp(v, l) ensures OpAt(v, l).content == OpAt(w, l).content {
    }
  }

  lemma RefusedKeepsCovered(w: World, v: World, k: Key)
    requires HasOp(w, k) && StateAt(w, k) == OpWaiting && Put(w, v, k, OpAt(w, k).(state := OpDeclined))
    requires v == w.(tasks := v.tasks) && (v.tasks[k.0].state == Cancelled <==> w.tasks[k.0].state == Cancelled)
    requires Covered(w)
    ensures Covered(v)
  {
    PutOps(w, v, k, OpAt(w, k).(state := OpDeclined));
    SamePending(w, v);
  }

  lemma RefusedKeepsOrderly(w: World, v: World, k: Key)
    requires HasOp(w, k) && StateAt(w, k) == OpWaiting && Put(w, v, k, OpAt(w, k).(state := OpDeclined))
    requires v == w.(tasks := v.tasks) && (v.tasks[k.0].state == Completed <==> w.tasks[k.0].state == Completed)
    requires k !in w.flights && (k in w.succeeded ==> k in w.overtaken) && Orderly(w)
    ensures Orderly(v)
  {
    PutOps(w, v, k, OpAt(w, k).(state := OpDeclined));
    forall l, m | Clash(v, l, m) ensures Clash(w, l, m) {
    }
  }

  lemma NotOutstanding(w: World, k: Key)
    requires HasOp(w, k) && StateAt(w, k) == OpWaiting && InvokedOnce(w) && Covered(w) && Orderly(w)
    ensures k !in w.flights && (k in w.succeeded ==> k in w.overtaken)
  {
    assert k !in w.invoked;
  }

  // ---------------------------------------------------------------------------------------------
  // Control, cancellation and crash

  /** Tasks may be paused, ended or recovered, but keep their operations. */
  ghost predicate SameOps(w: World, v: World) {
    && v.tasks.Keys == w.tasks.Keys
    && (forall t | t in w.tasks ::
          v.tasks[t].operations == w.tasks[t].operations && v.tasks[t].project == w.tasks[t].project)
    && v.invoked == w.invoked && v.accepted == w.accepted && v.succeeded == w.succeeded && v.overtaken == w.overtaken
  }

  lemma SameOpsAt(w: World, v: World)
    requires SameOps(w, v)
    ensures forall k :: HasOp(v, k) <==> HasOp(w, k)
    ensures forall k | HasOp(w, k) :: OpAt(v, k) == OpAt(w, k) && StateAt(v, k) == StateAt(w, k)
  {
  }

  lemma SameOpsKeepsInvoked(w: World, v: World)
    requires SameOps(w, v)
    requires v.flights.Keys <= w.flights.Keys && forall k | k in v.flights :: v.flights[k] == w.flights[k]
    requires forall k | k in v.reconciling :: k in w.reconciling
    ensures InvokedOnce(w) ==> InvokedOnce(v)
    ensures InvokedByApproval(w) ==> InvokedByApproval(v)
  {
    SameOpsAt(w, v);
  }

  lemma SameOpsKeepsOrderly(w: World, v: World)
    requires SameOps(w, v) && v.flights.Keys <= w.flights.Keys && Orderly(w)
    requires forall t | t in w.tasks && v.tasks[t].state == Completed ::
               w.tasks[t].state == Completed || !AnyUnsettled(w.tasks[t])
    ensures Orderly(v)
  {
    SameOpsAt(w, v);
    forall k, l | Clash(v, k, l) ensures Clash(w, k, l) {
    }
    forall k | HasOp(v, k) && k !in v.overtaken && v.tasks[k.0].state == Completed ensures !Unsettled(StateAt(v, k)) {
      assert Unsettled(StateAt(w, k)) ==> AnyUnsettled(w.tasks[k.0]);
    }
  }

  /** No newly cancelled tasks; pending cancellations are kept, carried out or accounted for as lost. */
  lemma SameOpsKeepsCovered(w: World, v: World)
    requires SameOps(w, v) && Covered(w)
    requires forall c | c in v.cancelling :: c.receipts <= c.operations
    requires forall k | HasOp(w, k) && v.tasks[k.0].state == Cancelled && w.tasks[k.0].state != Cancelled ::
               PendingHandover(v, k) && (k.1 in Receipts(w.tasks[k.0]) ==> PendingReceipt(v, k))
    requires forall k | HasOp(w, k) && (k in w.handed || PendingHandover(w, k) || k in w.lost) ::
               k in v.handed || PendingHandover(v, k) || k in v.lost
    requires forall k | HasOp(w, k) && StateAt(w, k) == OpSucceeded
                        && (k in w.handedReceipts || PendingReceipt(w, k) || k in w.lost) ::
               k in v.handedReceipts || PendingReceipt(v, k) || k in v.lost
    ensures Covered(v)
  {
    SameOpsAt(w, v);
  }

  /** Asking for the cancellation of a whole task makes all of its operations pending. */
  lemma CancelAllPending(w: World, t: TaskId)
    requires t in w.tasks
    ensures var v := CancelAll(w, t);
            && (forall c | c in w.cancelling :: c in v.cancelling)
            && (forall k | HasOp(w, k) && k.0 == t ::
                  PendingHandover(v, k) && (k.1 in Receipts(w.tasks[t]) ==> PendingReceipt(v, k)))
  {
    var v := CancelAll(w, t);
    var c := Cancellation(t, w.tasks[t].operations.Keys, Receipts(w.tasks[t]));
    assert c in v.cancelling;
  }

  lemma ControlEffect(task: Task, action: Action, businessDone: bool)
    requires Control(task, action, businessDone).Some?
    ensures var after := Control(task, action, businessDone).value;
            && after.operations == task.operations && after.project == task.project
            && (after.state == Cancelled <==> action == Cancel)
            && task.state != Cancelled && task.state != Completed
            && (after.state == Completed ==> !AnyUnsettled(task))
  {
  }

  /** What an accepted control does to the tasks. */
  lemma ControlIsSameOps(w: World, t: TaskId, action: Action, businessDone: bool)
    requires t in w.tasks && Control(w.tasks[t], action, businessDone).Some?
    ensures var v := ControlStep(w, t, action, businessDone);
            && SameOps(w, v) && v == w.(tasks := v.tasks, cancelling := v.cancelling)
            && (forall u | u in w.tasks && v.tasks[u].state == Completed ::
                  w.tasks[u].state == Completed || !AnyUnsettled(w.tasks[u]))
  {
    ControlEffect(w.tasks[t], action, businessDone);
  }

  lemma ControlKeepsCovered(w: World, t: TaskId, action: Action, businessDone: bool)
    requires t in w.tasks && Control(w.tasks[t], action, businessDone).Some? && Covered(w)
    ensures Covered(ControlStep(w, t, action, businessDone))
  {
    ControlEffect(w.tasks[t], action, businessDone);
    var saved, v := Save(w, t, Control(w.tasks[t], action, businessDone)), ControlStep(w, t, action, businessDone);
    SameOpsAt(w, saved);
    if action == Cancel {
      CancelAllPending(saved, t);
    }
    PendingGrows(w, v);
    SameOpsKeepsCovered(w, v);
  }

  lemma ControlKeepsInvoked(w: World, v: World)
    requires SameOps(w, v) && v == w.(tasks := v.tasks, cancelling := v.cancelling)
    requires InvokedOnce(w) && InvokedByApproval(w)
    ensures InvokedOnce(v) && InvokedByApproval(v)
  {
    SameOpsKeepsInvoked(w, v);
  }

  lemma RepeatCancelKeepsCovered(w: World, t: TaskId)
    requires t in w.tasks && w.tasks[t].state == Cancelled && Covered(w)
    ensures Covered(RepeatCancelStep(w, t))
  {
    var v := RepeatCancelStep(w, t);
    CancelAllPending(w.(lost := w.lost - Pairs(t, w.tasks[t].operations.Keys)), t);
    PendingGrows(w, v);
    SameOpsKeepsCovered(w, v);
  }

  lemma CancelOwnedKeepsCovered(w: World, c: Cancellation)
    requires c in w.cancelling && Covered(w)
    ensures Covered(CancelOwnedStep(w, c))
  {
    var v := CancelOwnedStep(w, c);
    forall k | PendingHandover(w, k) ensures k in v.handed || PendingHandover(v, k) {
      var d :| d in w.cancelling && d.task == k.0 && k.1 in d.operations;
      assert d in v.cancelling || d == c;
      assert d == c ==> k in Pairs(c.task, c.operations);
    }
    forall k | PendingReceipt(w, k) ensures k in v.handedReceipts || PendingReceipt(v, k) {
      var d :| d in w.cancelling && d.task == k.0 && k.1 in d.receipts;
      assert d in v.cancelling || d == c;
      assert d == c ==> k in Pairs(c.task, c.receipts);
    }
    SameOpsKeepsCovered(w, v);
  }

  lemma RecoverEffect(task: Task)
    ensures QuietTask(task, Recover(task))
  {
  }

  lemma CrashIsSameOps(w: World)
    ensures SameOps(w, CrashStep(w))
    ensures forall t | t in w.tasks :: QuietTask(w.tasks[t], CrashStep(w).tasks[t])
  {
    forall t | t in w.tasks ensures QuietTask(w.tasks[t], CrashStep(w).tasks[t]) {
      RecoverEffect(w.tasks[t]);
    }
  }

  lemma CrashKeepsCovered(w: World)
    requires Covered(w)
    ensures Covered(CrashStep(w))
  {
    var v := CrashStep(w);
    CrashIsSameOps(w);
    forall k | PendingHandover(w, k) ensures k in v.lost {
      var c :| c in w.cancelling && c.task == k.0 && k.1 in c.operations;
      assert (c.task, k.1) in Dropped(w.cancelling);
    }
    forall k | PendingReceipt(w, k) ensures k in v.lost {
      var c :| c in w.cancelling && c.task == k.0 && k.1 in c.receipts;
      assert (c.task, k.1) in Dropped(w.cancelling);
    }
    SameOpsKeepsCovered(w, v);
  }

  lemma CrashKeeps(w: World)
    requires InvokedOnce(w) && InvokedByApproval(w) && Orderly(w)
    ensures var v := CrashStep(w); InvokedOnce(v) && InvokedByApproval(v) && Orderly(v)
  {
    CrashIsSameOps(w);
    SameOpsKeepsInvoked(w, CrashStep(w));
    SameOpsKeepsOrderly(w, CrashStep(w));
  }

  // ---------------------------------------------------------------------------------------------
  // The invariant is kept by every event

  ghost predicate IdleIfWaiting(t: Task) {
    t.state == WaitingAgent ==> Idle(t)
  }

  lemma AdministrativeIdle(task: Task, e: Event)
    requires Administrative(e) && IdleIfWaiting(task) && TaskUpdate(task, e).Some?
    ensures IdleIfWaiting(TaskUpdate(task, e).value)
  {
  }

  lemma SettleIdle(task: Task, id: OpId, state: OpState)
    requires id in task.operations
    ensures IdleIfWaiting(Settle(task, id, state))
  {
  }

  lemma ControlIdle(task: Task, action: Action, businessDone: bool)
    requires IdleIfWaiting(task) && Control(task, action, businessDone).Some?
    ensures IdleIfWaiting(Control(task, action, businessDone).value)
  {
  }

  lemma RecoverIdle(task: Task)
    requires IdleIfWaiting(task)
    ensures IdleIfWaiting(Recover(task))
  {
  }

  /** At most task t changes, and it stays idle if waiting. */
  lemma OneTaskKeepsIdle(w: World, v: World, t: TaskId)
    requires WaitingAgentIsIdle(w)
    requires forall u | u in v.tasks && u != t :: u in w.tasks && v.tasks[u] == w.tasks[u]
    requires t in v.tasks ==> IdleIfWaiting(v.tasks[t])
    ensures WaitingAgentIsIdle(v)
  {
  }

  lemma SaveKeepsIdle(w: World, t: TaskId, value: Option<Task>)
    requires WaitingAgentIsIdle(w) && (value.Some? ==> IdleIfWaiting(value.value))
    ensures WaitingAgentIsIdle(Save(w, t, value))
  {
    OneTaskKeepsIdle(w, Save(w, t, value), t);
  }

  lemma AdministrativeKeepsIdle(w: World, e: Event)
    requires WaitingAgentIsIdle(w) && (Administrative(e) || e.Create?)
    ensures WaitingAgentIsIdle(Step(w, e))
  {
    if e.Create? {
      SaveKeepsIdle(w, e.t, Some(NewTask(e.project, e.goal)));
    } else if e.t in w.tasks {
      if TaskUpdate(w.tasks[e.t], e).Some? {
        AdministrativeIdle(w.tasks[e.t], e);
      }
      SaveKeepsIdle(w, e.t, TaskUpdate(w.tasks[e.t], e));
    }
  }

  lemma ActKeepsIdle(w: World, t: TaskId, id: OpId, content: Content, byAgent: bool, approved: bool, growth: bool)
    requires t in w.tasks && WaitingAgentIsIdle(w)
    ensures WaitingAgentIsIdle(ActStep(w, t, id, content, byAgent, approved, growth))
  {
    ActEffect(w, t, id, content, byAgent, approved, growth);
    OneTaskKeepsIdle(w, ActStep(w, t, id, content, byAgent, approved, growth), t);
  }

  lemma ArriveKeepsIdle(w: World, k: Key, outcome: OpState)
    requires HasOp(w, k) && WaitingAgentIsIdle(w)
    ensures WaitingAgentIsIdle(Arrive(w, k, outcome))
  {
    SettleIdle(w.tasks[k.0], k.1, outcome);
    OneTaskKeepsIdle(w, Arrive(w, k, outcome), k.0);
  }

  lemma RefuseKeepsIdle(w: World, t: TaskId, id: OpId)
    requires HasOp(w, (t, id)) && WaitingAgentIsIdle(w)
    ensures WaitingAgentIsIdle(Save(w, t, Decline(w.tasks[t], id)))
  {
    SettleIdle(w.tasks[t], id, OpDeclined);
    OneTaskKeepsIdle(w, Save(w, t, Decline(w.tasks[t], id)), t);
  }

  lemma ControlKeepsIdle(w: World, t: TaskId, action: Action, businessDone: bool)
    requires WaitingAgentIsIdle(w)
    ensures WaitingAgentIsIdle(ControlStep(w, t, action, businessDone))
  {
    if t in w.tasks && Control(w.tasks[t], action, businessDone).Some? {
      ControlIdle(w.tasks[t], action, businessDone);
      OneTaskKeepsIdle(w, ControlStep(w, t, action, businessDone), t);
    }
  }

  lemma CrashKeepsIdle(w: World)
    requires WaitingAgentIsIdle(w)
    ensures WaitingAgentIsIdle(CrashStep(w))
  {
    forall t | t in w.tasks ensures IdleIfWaiting(Recover(w.tasks[t])) {
      RecoverIdle(w.tasks[t]);
    }
  }

  lemma ListedKeeps(w: World, v: World, k: Key, op: Operation)
    requires Listed(w, v, k, op) && Invariant(w)
    ensures InvokedOnce(v) && InvokedByApproval(v) && Covered(v) && Orderly(v)
  {
    ListedKeepsInvoked(w, v, k, op);
    ListedKeepsApproval(w, v, k, op);
    FreshOpKeepsCovered(w, v, k, op);
    ListedKeepsOrderly(w, v, k, op);
  }

  lemma BegunKeeps(w: World, v: World, k: Key, op: Operation)
    requires Begun(w, v, k, op) && Invariant(w) && (op.content.capability.approval ==> k in w.accepted)
    ensures InvokedOnce(v) && InvokedByApproval(v) && Covered(v) && Orderly(v)
  {
    BegunKeepsInvoked(w, v, k, op);
    BegunKeepsApproval(w, v, k, op);
    FreshOpKeepsCovered(w, v, k, op);
    BegunKeepsOrderly(w, v, k, op);
  }

  lemma ActKeeps(w: World, t: TaskId, id: OpId, content: Content, byAgent: bool, approved: bool, growth: bool)
    requires t in w.tasks && Invariant(w)
    requires approved ==> (t, id) in w.accepted
    ensures Invariant(ActStep(w, t, id, content, byAgent, approved, growth))
  {
    var v := ActStep(w, t, id, content, byAgent, approved, growth);
    ActEffect(w, t, id, content, byAgent, approved, growth);
    ActKeepsIdle(w, t, id, content, byAgent, approved, growth);
    if Listed(w, v, (t, id), Operation(content, OpWaiting)) {
      ListedKeeps(w, v, (t, id), Operation(content, OpWaiting));
    } else if v != w {
      BegunKeeps(w, v, (t, id), Operation(content, OpRunning));
    }
  }

  lemma AcceptKeeps(w: World, t: TaskId, id: OpId, growth: bool)
    requires Invariant(w)
    ensures Invariant(AcceptStep(w, t, id, growth))
  {
    if HasOp(w, (t, id)) {
      AcceptanceKeeps(w, (t, id));
      ActKeeps(w.(accepted := w.accepted + {(t, id)}), t, id, OpAt(w, (t, id)).content, false, true, growth);
    }
  }

  lemma AcceptanceKeeps(w: World, k: Key)
    requires Invariant(w)
    ensures Invariant(w.(accepted := w.accepted + {k}))
  {
    var a := w.(accepted := w.accepted + {k});
    AcceptanceKeepsInvoked(w, a);
    AcceptanceKeepsApproval(w, a);
    assert WaitingAgentIsIdle(a);
    SamePendingKeepsCovered(w, a);
    AcceptanceKeepsOrderly(w, a);
  }

  lemma AcceptanceKeepsInvoked(w: World, a: World)
    requires a == w.(accepted := a.accepted) && InvokedOnce(w)
    ensures InvokedOnce(a)
  {
  }

  lemma AcceptanceKeepsApproval(w: World, a: World)
    requires a == w.(accepted := a.accepted) && w.accepted <= a.accepted && InvokedByApproval(w)
    ensures InvokedByApproval(a)
  {
  }

  lemma AcceptanceKeepsOrderly(w: World, a: World)
    requires a == w.(accepted := a.accepted) && Orderly(w)
    ensures Orderly(a)
  {
    forall l, m | Clash(a, l, m) ensures Clash(w, l, m) {
    }
  }

  lemma SamePendingKeepsCovered(w: World, a: World)
    requires a == w.(accepted := a.accepted) && Covered(w)
    ensures Covered(a)
  {
    SamePending(w, a);
  }

  lemma RecordKeeps(w: World, k: Key)
    requires Invariant(w) && MayRecord(w, k)
    ensures var v := RecordStep(w, k); InvokedOnce(v) && InvokedByApproval(v) && Covered(v) && Orderly(v)
  {
    var v, outcome := RecordStep(w, k), w.flights[k].outcome;
    RecordArrives(w, k);
    ArrivedKeepsInvoked(w, v, k, outcome);
    ArrivedKeepsApproval(w, v, k, outcome);
    ArrivedKeepsCovered(w, v, k, outcome);
    ArrivedKeepsOrderly(w, v, k, outcome);
  }

  lemma ReconcileKeeps(w: World, k: Key)
    requires Invariant(w) && MayReconcile(w, k)
    ensures var v := ReconcileStep(w, k); InvokedOnce(v) && InvokedByApproval(v) && Covered(v) && Orderly(v)
  {
    var v := ReconcileStep(w, k);
    ReconcileArrives(w, k);
    ArrivedKeepsInvoked(w, v, k, OpSucceeded);
    ArrivedKeepsApproval(w, v, k, OpSucceeded);
    ArrivedKeepsCovered(w, v, k, OpSucceeded);
    ArrivedKeepsOrderly(w, v, k, OpSucceeded);
  }

  lemma {:induction false} QuietKeepsInvariant(w: World, e: Event)
    requires Invariant(w) && (Administrative(e) || e.Create?)
    ensures Invariant(Step(w, e))
  {
    QuietStep(w, e);
    QuietKeepsInvoked(w, Step(w, e));
    QuietKeepsCovered(w, Step(w, e));
    QuietKeepsOrderly(w, Step(w, e));
    AdministrativeKeepsIdle(w, e);
  }

  lemma ReserveEventKeeps(w: World, e: Event)
    requires Invariant(w) && (e.Act? || e.Accept?)
    ensures Invariant(Step(w, e))
  {
    if e.Accept? {
      AcceptKeeps(w, e.t, e.id, e.growth);
    } else if e.t in w.tasks {
      ActKeeps(w, e.t, e.id, e.content, e.byAgent, false, e.growth);
    }
  }

  lemma RefusalKeeps(w: World, t: TaskId, id: OpId)
    requires Invariant(w) && HasOp(w, (t, id)) && Decline(w.tasks[t], id).Some?
    ensures Invariant(Save(w, t, Decline(w.tasks[t], id)))
  {
    var v := Save(w, t, Decline(w.tasks[t], id));
    Refused(w, t, id);
    RefusedKeepsInvoked(w, v, (t, id));
    RefusedKeepsCovered(w, v, (t, id));
    NotOutstanding(w, (t, id));
    RefusedKeepsOrderly(w, v, (t, id));
    RefuseKeepsIdle(w, t, id);
  }

  lemma RefuseEventKeeps(w: World, e: Event)
    requires Invariant(w) && e.Refuse?
    ensures Invariant(Step(w, e))
  {
    if HasOp(w, (e.t, e.id)) && Decline(w.tasks[e.t], e.id).Some? {
      RefusalKeeps(w, e.t, e.id);
    }
  }

  lemma ReturnKeeps(w: World, k: Key, outcome: OpState)
    requires Invariant(w) && k in w.flights && outcome in {OpSucceeded, OpFailed, OpUnknown}
    ensures Invariant(w.(flights := w.flights[k := Returned(outcome)]))
  {
    var v := w.(flights := w.flights[k := Returned(outcome)]);
    assert OutstandingInvoked(v);
    BookkeepingKeeps(w, v);
  }

  lemma ReadReceiptKeeps(w: World, k: Key)
    requires Invariant(w) && HasOp(w, k) && Unsettled(StateAt(w, k))
    ensures Invariant(w.(reconciling := w.reconciling + multiset{k}))
  {
    var v := w.(reconciling := w.reconciling + multiset{k});
    assert OutstandingInvoked(v);
    BookkeepingKeeps(w, v);
  }

  /** Steps that only note what is outstanding. */
  lemma BookkeepingKeeps(w: World, v: World)
    requires Invariant(w) && OutstandingInvoked(v)
    requires v == w.(flights := v.flights, reconciling := v.reconciling) && v.flights.Keys <= w.flights.Keys
    ensures Invariant(v)
  {
    SameOpsAt(w, v);
    assert InvokedByState(v) && InvokedByApproval(v) && WaitingAgentIsIdle(v);
    SameOpsKeepsOrderly(w, v);
    BookkeepingKeepsCovered(w, v);
  }

  lemma BookkeepingKeepsCovered(w: World, v: World)
    requires Covered(w)
    requires v == w.(flights := v.flights, reconciling := v.reconciling)
    ensures Covered(v)
  {
    SameOpsAt(w, v);
    SamePending(w, v);
  }

  lemma RecordKeepsInvariant(w: World, k: Key)
    requires Invariant(w) && MayRecord(w, k)
    ensures Invariant(RecordStep(w, k))
  {
    RecordKeeps(w, k);
    ArriveKeepsIdle(w.(flights := w.flights - {k}), k, w.flights[k].outcome);
  }

  lemma ReconcileKeepsIdle(w: World, k: Key)
    requires MayReconcile(w, k) && WaitingAgentIsIdle(w)
    ensures WaitingAgentIsIdle(ReconcileStep(w, k))
  {
    SettleIdle(w.tasks[k.0], k.1, OpSucceeded);
    OneTaskKeepsIdle(w, ReconcileStep(w, k), k.0);
  }

  lemma ReconcileKeepsInvariant(w: World, k: Key)
    requires Invariant(w) && MayReconcile(w, k)
    ensures Invariant(ReconcileStep(w, k))
  {
    ReconcileKeeps(w, k);
    ReconcileKeepsIdle(w, k);
  }

  lemma ControlKeeps(w: World, t: TaskId, action: Action, businessDone: bool)
    requires Invariant(w) && t in w.tasks && Control(w.tasks[t], action, businessDone).Some?
    ensures Invariant(ControlStep(w, t, action, businessDone))
  {
    var v := ControlStep(w, t, action, businessDone);
    ControlIsSameOps(w, t, action, businessDone);
    ControlKeepsInvoked(w, v);
    ControlKeepsCovered(w, t, action, businessDone);
    SameOpsKeepsOrderly(w, v);
    ControlKeepsIdle(w, t, action, businessDone);
  }

  lemma ControlEventKeeps(w: World, e: Event)
    requires Invariant(w) && e.ControlTask?
    ensures Invariant(Step(w, e))
  {
    if e.t in w.tasks && Control(w.tasks[e.t], e.action, e.businessDone).Some? {
      ControlKeeps(w, e.t, e.action, e.businessDone);
    }
  }

  /** A step that only moves cancellations on keeps everything but what is said about cancellations. */
  lemma HandoverKeeps(w: World, v: World)
    requires Invariant(w) && Covered(v)
    requires v == w.(cancelling := v.cancelling, handed := v.handed, handedReceipts := v.handedReceipts, lost := v.lost)
    ensures Invariant(v)
  {
    SameOpsKeepsInvoked(w, v);
    SameOpsKeepsOrderly(w, v);
  }

  lemma RepeatCancelKeeps(w: World, t: TaskId)
    requires Invariant(w) && t in w.tasks && w.tasks[t].state == Cancelled
    ensures Invariant(RepeatCancelStep(w, t))
  {
    RepeatCancelKeepsCovered(w, t);
    HandoverKeeps(w, RepeatCancelStep(w, t));
  }

  lemma CancelOwnedKeeps(w: World, c: Cancellation)
    requires Invariant(w) && c in w.cancelling
    ensures Invariant(CancelOwnedStep(w, c))
  {
    CancelOwnedKeepsCovered(w, c);
    HandoverKeeps(w, CancelOwnedStep(w, c));
  }

  lemma CrashEventKeeps(w: World, e: Event)
    requires Invariant(w) && e.Crash?
    ensures Invariant(Step(w, e))
  {
    CrashKeeps(w);
    CrashKeepsCovered(w);
    CrashKeepsIdle(w);
  }

  /** Every event keeps the invariant. */
  lemma StepKeeps(w: World, e: Event)
    requires Invariant(w)
    ensures Invariant(Step(w, e))
  {
    if Administrative(e) || e.Create? {
      QuietKeepsInvariant(w, e);
    } else if e.Act? || e.Accept? {
      ReserveEventKeeps(w, e);
    } else if e.Refuse? {
      RefuseEventKeeps(w, e);
    } else if e.Return? {
      if e.key in w.flights && e.outcome in {OpSucceeded, OpFailed, OpUnknown} {
        ReturnKeeps(w, e.key, e.outcome);
      }
    } else if e.ReadReceipt? {
      if HasOp(w, e.key) && Unsettled(StateAt(w, e.key)) {
        ReadReceiptKeeps(w, e.key);
      }
    } else if e.Record? {
      if MayRecord(w, e.key) {
        RecordKeepsInvariant(w, e.key);
      }
    } else if e.Reconcile? {
      if MayReconcile(w, e.key) {
        ReconcileKeepsInvariant(w, e.key);
      }
    } else if e.ControlTask? {
      ControlEventKeeps(w, e);
    } else if e.RepeatCancel? {
      if e.t in w.tasks && w.tasks[e.t].state == Cancelled {
        RepeatCancelKeeps(w, e.t);
      }
    } else if e.CancelOwned? {
      if e.cancellation in w.cancelling {
        CancelOwnedKeeps(w, e.cancellation);
      }
    } else {
      CrashEventKeeps(w, e);
    }
  }

  lemma {:induction false} RunKeeps(w: World, events: seq<Event>)
    requires Invariant(w)
    ensures Invariant(Run(w, events))
    decreases |events|
  {
    if events != [] {
      StepKeeps(w, events[0]);
      RunKeeps(Step(w, events[0]), events[1..]);
    }
  }

  lemma InitialWorld()
    ensures Invariant(Init)
  {
  }

  lemma ReachableWorlds(events: seq<Event>)
    ensures Invariant(Run(Init, events))
  {
    InitialWorld();
    RunKeeps(Init, events);
  }
}
