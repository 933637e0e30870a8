/** What the reservation of an action means: which operations a granted level covers, when an action is refused and
    why, and where the operations of a run and their business calls come from.
 */
module TaskReservations {
  import opened Collections
  import opened TaskRules
  import opened TaskStore
  import opened TaskProtocol
  import opened TaskSafety

  /** What an agent may do with the level it was granted. */
  predicate Covers(granted: Granted, needed: Level) {
    match granted
    case ReadOnly => false
    case Preparing => needed == Prepare
    case Executing => needed == Prepare || needed == Execute
  }

  /** The agent acts in a continuous execution, which was started with a granted level. */
  predicate Bound(t: Task, byAgent: bool) {
    byAgent && t.execution.Some? && t.execution.value.continuous
  }

  predicate Exceeds(t: Task, content: Content, byAgent: bool) {
    Bound(t, byAgent) && !Covers(t.execution.value.level, content.capability.level)
  }

  predicate IsOpen(t: Task) {
    t.state in {WaitingAgent, WaitingUser, Running, Blocked}
  }

  /** There is room for another operation of the task, and in a continuous execution for another of the agent. */
  predicate HasRoom(t: Task, byAgent: bool) {
    |t.operations| <= 511 && (Bound(t, byAgent) ==> |t.operations| - t.execution.value.baseline <= 127)
  }

  /** A new operation, or one that waited for the user and is now approved. */
  predicate IsDue(t: Task, id: OpId, content: Content, byAgent: bool, approved: bool) {
    if id in t.operations then t.operations[id] == Operation(content, OpWaiting) && approved else HasRoom(t, byAgent)
  }

  /** A refusal for want of permission is one of an agent whose level does not cover the capability, in an open
      task. */
  lemma LevelRefusedExactly(t: Task, id: OpId, content: Content, byAgent: bool, approved: bool, unsettledWrite: bool,
                            growth: bool)
    ensures Reserve(t, id, content, byAgent, approved, unsettledWrite, growth) == Refused(PermissionRequired)
        <==> IsOpen(t) && Exceeds(t, content, byAgent)
  {
    assert forall level: Level, granted :: LevelAllowed(level, granted) <==> Covers(granted, level);
  }

  /** When an action is registered for review, when it is started, and when it is known already; in all other cases
      it is refused. */
  lemma ReservedExactly(t: Task, id: OpId, content: Content, byAgent: bool, approved: bool, unsettledWrite: bool,
                        growth: bool)
    ensures var r := Reserve(t, id, content, byAgent, approved, unsettledWrite, growth);
            var allowed := IsOpen(t) && !Exceeds(t, content, byAgent);
            var due := allowed && IsDue(t, id, content, byAgent, approved);
            var reviewed := content.capability.approval && !approved;
            && (r.Registered? <==> due && reviewed && growth)
            && (r.Started? <==> due && !reviewed && !unsettledWrite && (id in t.operations || growth))
            && (r.Known? <==> allowed && !due && id in t.operations && t.operations[id].content == content)
  {
    LevelRefusedExactly(t, id, content, byAgent, approved, unsettledWrite, growth);
  }

  /** What is stored of a reserved action. */
  lemma ReservedTask(t: Task, id: OpId, content: Content, byAgent: bool, approved: bool, unsettledWrite: bool,
                     growth: bool)
    ensures var r := Reserve(t, id, content, byAgent, approved, unsettledWrite, growth);
            && (r.Registered? ==>
                  r.task == t.(operations := t.operations[id := Operation(content, OpWaiting)], state := WaitingUser))
            && (r.Started? ==>
                  r.task == t.(operations := t.operations[id := Operation(content, OpRunning)], state := Running))
  {
    ReserveEffect(t, id, content, byAgent, approved, unsettledWrite, growth);
  }

  // ---------------------------------------------------------------------------------------------
  // Runs

  /** A step of the agent that registers an operation or makes its call is covered by the level granted. */
  lemma StepIsCovered(w: World, e: Event)
    requires e.Act? && e.t in w.tasks && Step(w, e) != w
    ensures IsOpen(w.tasks[e.t]) && !Exceeds(w.tasks[e.t], e.content, e.byAgent)
    ensures !HasOp(w, (e.t, e.id)) ==> HasRoom(w.tasks[e.t], e.byAgent)
  {
    var t := w.tasks[e.t];
    ReservedExactly(t, e.id, e.content, e.byAgent, false, UnsettledWrite(w.tasks, t.project), e.growth);
  }

  ghost predicate Appears(w: World, v: World, k: Key) {
    !HasOp(w, k) && HasOp(v, k)
  }

  ghost predicate IsInvoked(w: World, v: World, k: Key) {
    w.invoked[k] == 0 && v.invoked[k] > 0
  }

  lemma ArrivalAddsNothing(w: World, k: Key, outcome: OpState, l: Key)
    requires HasOp(w, k)
    ensures HasOp(Arrive(w, k, outcome), l) <==> HasOp(w, l)
    ensures HasOp(w, l) ==> OpAt(Arrive(w, k, outcome), l).content == OpAt(w, l).content
    ensures Arrive(w, k, outcome).invoked == w.invoked
  {
  }

  /** Operations appear by acting only, and keep what they ask for. */
  lemma OtherStepsAddNothing(w: World, e: Event, k: Key)
    requires !e.Act? && !e.Accept?
    ensures HasOp(Step(w, e), k) <==> HasOp(w, k)
    ensures HasOp(w, k) ==> OpAt(Step(w, e), k).content == OpAt(w, k).content
    ensures Step(w, e).invoked == w.invoked
  {
    if Administrative(e) || e.Create? {
      QuietStep(w, e);
      QuietOps(w, Step(w, e));
    } else if e.Record? && MayRecord(w, e.key) {
      ArrivalAddsNothing(w.(flights := w.flights - {e.key}), e.key, w.flights[e.key].outcome, k);
    } else if e.Reconcile? && MayReconcile(w, e.key) {
      ArrivalAddsNothing(w.(reconciling := w.reconciling - multiset{e.key}, overtaken := Step(w, e).overtaken),
                         e.key, OpSucceeded, k);
    } else if e.Refuse? {
      RefusalAddsNothing(w, e.t, e.id, k);
    } else if e.ControlTask? {
      ControlAddsNothing(w, e.t, e.action, e.businessDone, k);
    }
  }

  lemma RefusalAddsNothing(w: World, t: TaskId, id: OpId, k: Key)
    ensures var v := Step(w, Refuse(t, id));
            && (HasOp(v, k) <==> HasOp(w, k)) && v.invoked == w.invoked
            && (HasOp(w, k) ==> OpAt(v, k).content == OpAt(w, k).content)
  {
  }

  lemma ControlAddsNothing(w: World, t: TaskId, action: Action, businessDone: bool, k: Key)
    ensures var v := ControlStep(w, t, action, businessDone);
            && (HasOp(v, k) <==> HasOp(w, k)) && v.invoked == w.invoked
            && (HasOp(w, k) ==> OpAt(v, k).content == OpAt(w, k).content)
  {
  }

  /** The same of a reservation, for all other operations, and for those that are there already. */
  lemma ReservationAddsOne(w: World, t: TaskId, id: OpId, content: Content, byAgent: bool, approved: bool, growth: bool,
                           k: Key)
    requires t in w.tasks && (HasOp(w, (t, id)) && approved ==> OpAt(w, (t, id)).content == content)
    ensures var v := ActStep(w, t, id, content, byAgent, approved, growth);
            && (HasOp(w, k) ==> HasOp(v, k) && OpAt(v, k).content == OpAt(w, k).content)
            && (k != (t, id) ==> (HasOp(v, k) <==> HasOp(w, k)) && v.invoked[k] == w.invoked[k])
            && (Appears(w, v, k) || IsInvoked(w, v, k) ==> HasOp(v, k) && OpAt(v, k).content == content)
  {
    ActEffect(w, t, id, content, byAgent, approved, growth);
    var v := ActStep(w, t, id, content, byAgent, approved, growth);
    hide ActStep;
    if v != w {
      var op :| op in [Operation(content, OpWaiting), Operation(content, OpRunning)] && Put(w, v, (t, id), op);
      PutOps(w, v, (t, id), op);
    }
  }

  lemma ActsOnOne(w: World, e: Event, k: Key)
    requires e.Act? || e.Accept?
    ensures k != (e.t, e.id) || e.Accept? ==> (HasOp(Step(w, e), k) <==> HasOp(w, k))
    ensures HasOp(w, k) ==> HasOp(Step(w, e), k) && OpAt(Step(w, e), k).content == OpAt(w, k).content
    ensures k != (e.t, e.id) ==> Step(w, e).invoked[k] == w.invoked[k]
    ensures e.Act? && Appears(w, Step(w, e), k) ==> OpAt(Step(w, e), k).content == e.content
    ensures e.Act? && IsInvoked(w, Step(w, e), k) ==> HasOp(Step(w, e), k) && OpAt(Step(w, e), k).content == e.content
  {
    hide ActStep;
    if e.Act? {
      if e.t in w.tasks {
        ReservationAddsOne(w, e.t, e.id, e.content, e.byAgent, false, e.growth, k);
      }
    } else if HasOp(w, (e.t, e.id)) {
      ReservationAddsOne(w.(accepted := w.accepted + {(e.t, e.id)}), e.t, e.id, OpAt(w, (e.t, e.id)).content, false,
                         true, e.growth, k);
    }
  }

  lemma StepAdds(w: World, e: Event, k: Key)
    ensures Appears(w, Step(w, e), k) ==>
              e.Act? && k == (e.t, e.id) && e.t in w.tasks && OpAt(Step(w, e), k).content == e.content
    ensures IsInvoked(w, Step(w, e), k) ==> (e.Act? || e.Accept?) && k == (e.t, e.id) && e.t in w.tasks
    ensures HasOp(w, k) ==> HasOp(Step(w, e), k) && OpAt(Step(w, e), k).content == OpAt(w, k).content
    ensures e.Act? && IsInvoked(w, Step(w, e), k) ==> HasOp(Step(w, e), k) && OpAt(Step(w, e), k).content == e.content
  {
    if e.Act? || e.Accept? {
      ActsOnOne(w, e, k);
    } else {
      OtherStepsAddNothing(w, e, k);
    }
  }

  /** In every run, an operation was added by acting on its content in an open task that had room for it; if the
      agent acted in a continuous execution, the level granted then covers the capability. */
  lemma {:induction false} OperationWasCovered(events: seq<Event>, k: Key, n: nat) returns (i: nat)
    requires n <= |events| && HasOp(At(Init, events, n), k)
    ensures i < n && events[i].Act? && k == (events[i].t, events[i].id) && k.0 in At(Init, events, i).tasks
    ensures !HasOp(At(Init, events, i), k) && OpAt(At(Init, events, n), k).content == events[i].content
    ensures var t := At(Init, events, i).tasks[k.0];
            IsOpen(t) && HasRoom(t, events[i].byAgent) && !Exceeds(t, events[i].content, events[i].byAgent)
    decreases n
  {
    NothingAtFirst(events, k);
    AtNext(Init, events, n - 1);
    hide At, Step, Exceeds, Run;
    StepAdds(At(Init, events, n - 1), events[n - 1], k);
    if HasOp(At(Init, events, n - 1), k) {
      i := OperationWasCovered(events, k, n - 1);
    } else {
      i := n - 1;
      StepIsCovered(At(Init, events, i), events[i]);
    }
  }

  lemma NothingAtFirst(events: seq<Event>, k: Key)
    ensures k !in At(Init, events, 0).invoked && !HasOp(At(Init, events, 0), k)
  {
    assert events[..0] == [];
  }

  lemma InvokedIsThere(events: seq<Event>, k: Key, n: nat)
    requires n <= |events| && k in At(Init, events, n).invoked
    ensures HasOp(At(Init, events, n), k)
  {
    ReachableWorlds(events[..n]);
  }

  lemma CallIsStep(w: World, e: Event, k: Key)
    requires IsInvoked(w, Step(w, e), k)
    ensures Step(w, e) != w
  {
    hide Step;
  }

  /** In every run, a business call was made when the user accepted the operation, or by acting on its content; if
      the agent acted in a continuous execution, the level granted then covers the capability. */
  lemma {:induction false} CallWasCovered(events: seq<Event>, k: Key, n: nat) returns (i: nat)
    requires n <= |events| && k in At(Init, events, n).invoked && HasOp(At(Init, events, n), k)
    ensures i < n && k.0 in At(Init, events, i).tasks && k !in At(Init, events, i).invoked
    ensures || (events[i].Accept? && k == (events[i].t, events[i].id))
            || (events[i].Act? && k == (events[i].t, events[i].id)
                && OpAt(At(Init, events, n), k).content == events[i].content
                && !Exceeds(At(Init, events, i).tasks[k.0], events[i].content, events[i].byAgent))
    decreases n
  {
    NothingAtFirst(events, k);
    AtNext(Init, events, n - 1);
    var w := At(Init, events, n - 1);
    hide At, Step, Exceeds, Run;
    StepAdds(w, events[n - 1], k);
    if k in w.invoked {
      InvokedIsThere(events, k, n - 1);
      i := CallWasCovered(events, k, n - 1);
    } else {
      i := n - 1;
      if events[i].Act? {
        CallIsStep(w, events[i], k);
        StepIsCovered(w, events[i]);
      }
    }
  }

  /** No task ever has more than 512 operations. */
  lemma {:induction false} OperationsAreBounded(events: seq<Event>, t: TaskId)
    requires t in Run(Init, events).tasks
    ensures |Run(Init, events).tasks[t].operations| <= 512
  {
    AtEnd(Init, events);
    BoundedAt(events, t, |events|);
  }

  lemma {:induction false} BoundedAt(events: seq<Event>, t: TaskId, n: nat)
    requires n <= |events| && t in At(Init, events, n).tasks
    ensures |At(Init, events, n).tasks[t].operations| <= 512
    decreases n
  {
    assert events[..0] == [];
    AtNext(Init, events, n - 1);
    var w, e := At(Init, events, n - 1), events[n - 1];
    if t in w.tasks {
      BoundedAt(events, t, n - 1);
      StepBounded(w, e, t);
    } else {
      NewIsEmpty(w, e, t);
    }
  }

  lemma NewIsEmpty(w: World, e: Event, t: TaskId)
    requires t !in w.tasks && t in Step(w, e).tasks
    ensures Step(w, e).tasks[t].operations == map[]
  {
    var v := Step(w, e);
    forall o ensures o !in v.tasks[t].operations {
      StepAdds(w, e, (t, o));
    }
  }

  lemma OneMore(a: map<OpId, Operation>, b: map<OpId, Operation>, id: OpId)
    requires b.Keys <= a.Keys + {id}
    ensures |b| <= |a| + if id in a then 0 else 1
  {
    SubsetSize(b.Keys, a.Keys + {id});
    assert |b| == |b.Keys| && |a| == |a.Keys|;
    if id in a {
      assert a.Keys + {id} == a.Keys;
    }
  }

  lemma StepBounded(w: World, e: Event, t: TaskId)
    requires t in w.tasks && t in Step(w, e).tasks && |w.tasks[t].operations| <= 512
    ensures |Step(w, e).tasks[t].operations| <= 512
  {
    var before, after := w.tasks[t].operations, Step(w, e).tasks[t].operations;
    var id := if e.Act? then e.id else "";
    forall o | o in after ensures o in before || (e.Act? && o == id && t == e.t) {
      StepAdds(w, e, (t, o));
    }
    if e.Act? && t == e.t && Step(w, e) != w {
      StepIsCovered(w, e);
      OneMore(before, after, id);
    } else {
      assert after.Keys <= before.Keys;
      SubsetSize(after.Keys, before.Keys);
      assert |after| == |after.Keys| && |before| == |before.Keys|;
    }
  }
}
