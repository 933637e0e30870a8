/** Safety of the collaboration protocol over all runs.

    The store records a result whatever the operation's state has become, and a reconciliation may settle
    an operation whose own call is still outstanding. Some properties hold in every run; the others hold
    exactly as long as no reconciliation has overtaken the operation they are about, and for each of these
    a run is given in which they fail otherwise.
 */
module TaskSafety {
  import opened Collections
  import opened TaskRules
  import opened TaskStore
  import opened TaskProtocol

  // ---------------------------------------------------------------------------------------------
  // In every run

  /** No interleaving makes the business call of an operation twice. It has been made exactly when the
      operation is neither waiting for review nor declined. */
  lemma AtMostOneInvocation(events: seq<Event>, k: Key)
    ensures var w := Run(Init, events);
            && w.invoked[k] <= 1
            && (w.invoked[k] == 1 <==> HasOp(w, k) && StateAt(w, k) != OpWaiting && StateAt(w, k) != OpDeclined)
  {
    ReachableWorlds(events);
  }

  /** A call that needs the user's approval is only ever made for an operation the user accepted. */
  lemma NoCallWithoutApproval(events: seq<Event>, k: Key)
    requires k in Run(Init, events).invoked
    ensures var w := Run(Init, events);
            HasOp(w, k) && (OpAt(w, k).content.capability.approval ==> k in w.accepted)
  {
    ReachableWorlds(events);
  }

  /** While a task waits for the agent, nothing else about it is open. */
  lemma WaitingAgentMeansIdle(events: seq<Event>, t: TaskId)
    requires var w := Run(Init, events); t in w.tasks && w.tasks[t].state == WaitingAgent
    ensures var task := Run(Init, events).tasks[t];
            && (forall o | o in task.operations ::
                  task.operations[o].state in {OpSucceeded, OpFailed, OpDeclined})
            && (forall q | q in task.questions :: task.questions[q].answered)
            && (task.execution.Some? ==> task.execution.value.state != ExRunning)
  {
    ReachableWorlds(events);
    var task := Run(Init, events).tasks[t];
    forall o | o in task.operations ensures task.operations[o].state in {OpSucceeded, OpFailed, OpDeclined} {
      assert !Unsettled(task.operations[o].state) && task.operations[o].state != OpWaiting;
    }
  }

  ghost predicate InState(w: World, t: TaskId, state: TaskState) {
    t in w.tasks && w.tasks[t].state == state
  }

  /** The only events that change a paused task's state are the user's controls, and none changes a
      cancelled task's. */
  lemma StopStays(w: World, e: Event, t: TaskId, state: TaskState)
    requires InState(w, t, state)
    requires state == Cancelled || (state == Paused && !(e.ControlTask? && e.t == t))
    ensures InState(Step(w, e), t, state)
  {
    if Administrative(e) || e.Create? {
      QuietStep(w, e);
    } else if e.Act? || e.Accept? {
      ReservationStopped(w, e, t, state);
    } else if e.Record? || e.Reconcile? || e.Refuse? {
      ResultStopped(w, e, t, state);
    } else if e.ControlTask? {
      ControlStopped(w, e.t, e.action, e.businessDone);
    } else if e.Crash? {
      CrashIsSameOps(w);
    }
  }

  lemma ArrivalStopped(w: World, k: Key, outcome: OpState, t: TaskId, state: TaskState)
    requires HasOp(w, k) && InState(w, t, state) && (state == Cancelled || state == Paused)
    ensures InState(Arrive(w, k, outcome), t, state)
  {
  }

  lemma ResultStopped(w: World, e: Event, t: TaskId, state: TaskState)
    requires InState(w, t, state) && (state == Cancelled || state == Paused) && (e.Record? || e.Reconcile? || e.Refuse?)
    ensures InState(Step(w, e), t, state)
  {
    if e.Record? && MayRecord(w, e.key) {
      ArrivalStopped(w.(flights := w.flights - {e.key}), e.key, w.flights[e.key].outcome, t, state);
    } else if e.Reconcile? && MayReconcile(w, e.key) {
      ArrivalStopped(w.(reconciling := w.reconciling - multiset{e.key}, overtaken := Step(w, e).overtaken), e.key,
                     OpSucceeded, t, state);
    }
  }

  lemma ReservationStopped(w: World, e: Event, t: TaskId, state: TaskState)
    requires InState(w, t, state) && Stopped(state) && (e.Act? || e.Accept?)
    ensures InState(Step(w, e), t, state)
  {
    if e.Act? && e.t in w.tasks {
      ActEffect(w, e.t, e.id, e.content, e.byAgent, false, e.growth);
    } else if e.Accept? && HasOp(w, (e.t, e.id)) {
      ActEffect(w.(accepted := w.accepted + {(e.t, e.id)}), e.t, e.id, OpAt(w, (e.t, e.id)).content, false, true,
          e.growth);
    }
  }

  lemma ControlStopped(w: World, t: TaskId, action: Action, businessDone: bool)
    ensures forall u | u in w.tasks && (u != t || w.tasks[u].state == Cancelled) ::
              u in ControlStep(w, t, action, businessDone).tasks
              && ControlStep(w, t, action, businessDone).tasks[u] == w.tasks[u]
  {
  }

  /** Cancellation is final. */
  lemma {:induction false} CancelledIsFinal(w: World, events: seq<Event>, t: TaskId)
    requires InState(w, t, Cancelled)
    ensures InState(Run(w, events), t, Cancelled)
    decreases |events|
  {
    if events != [] {
      StopStays(w, events[0], t, Cancelled);
      CancelledIsFinal(Step(w, events[0]), events[1..], t);
    }
  }

  ghost predicate CancellationSettled(w: World, t: TaskId) {
    && InState(w, t, Cancelled)
    && (forall c | c in w.cancelling :: c.task != t)
    && (forall k | k in w.lost :: k.0 != t)
  }

  /** Cancellation has no gap. Once a task is cancelled, nothing is pending and no crash has dropped a
      cancellation since, every operation of it that ever succeeded was handed over for cancellation; with
      its receipt, if it still has it. */
  lemma CancellationHasNoGap(events: seq<Event>, k: Key)
    requires CancellationSettled(Run(Init, events), k.0)
    ensures var w := Run(Init, events);
            && (k in w.succeeded ==> k in w.handed)
            && (HasOp(w, k) && StateAt(w, k) == OpSucceeded ==> k in w.handedReceipts)
  {
    ReachableWorlds(events);
  }

  /** The cancellation of everything a task holds. */
  function Whole(task: Task, t: TaskId): Cancellation {
    Cancellation(t, task.operations.Keys, Receipts(task))
  }

  lemma RepeatAndCarryOut(w: World, t: TaskId)
    requires InState(w, t, Cancelled)
    ensures var all := Whole(w.tasks[t], t);
            Step(Step(w, RepeatCancel(t)), CancelOwned(all))
            == w.(lost := w.lost - Pairs(t, all.operations), handed := w.handed + Pairs(t, all.operations),
                  handedReceipts := w.handedReceipts + Pairs(t, all.receipts))
  {
    var all := Whole(w.tasks[t], t);
    assert Step(w, RepeatCancel(t)).cancelling == w.cancelling + multiset{all};
  }

  /** After a crash, repeating the cancellation and carrying it out closes the gap. */
  lemma RepeatedCancelRestores(events: seq<Event>, t: TaskId, k: Key)
    requires InState(Run(Init, events), t, Cancelled) && k.0 == t
    ensures var w := Run(Init, events);
            var v := Step(Step(w, RepeatCancel(t)), CancelOwned(Whole(w.tasks[t], t)));
            && InState(v, t, Cancelled)
            && (k in v.succeeded ==> k in v.handed && k !in v.lost)
            && (HasOp(v, k) && StateAt(v, k) == OpSucceeded ==> k in v.handedReceipts)
  {
    ReachableWorlds(events);
    var w := Run(Init, events);
    RepeatAndCarryOut(w, t);
    assert k in w.succeeded ==> HasOp(w, k);
  }

  // ---------------------------------------------------------------------------------------------
  // Up to overtaking reconciliations

  /** At most one operation of a project is running or unknown, unless one was overtaken. */
  lemma OneUnsettledPerProject(events: seq<Event>, k: Key, l: Key)
    requires Clash(Run(Init, events), k, l)
    ensures k in Run(Init, events).overtaken || l in Run(Init, events).overtaken
  {
    ReachableWorlds(events);
  }

  /** An operation that succeeded and was not overtaken keeps its receipt, so a settled cancellation
      handed it over with the receipt. */
  lemma SuccessIsFinal(events: seq<Event>, k: Key)
    requires var w := Run(Init, events); k in w.succeeded && k !in w.overtaken
    ensures var w := Run(Init, events);
            && HasOp(w, k) && StateAt(w, k) == OpSucceeded
            && (CancellationSettled(w, k.0) ==> k in w.handedReceipts)
  {
    ReachableWorlds(events);
  }

  /** A step overtakes an operation exactly when it reconciles it while its own call is outstanding. */
  lemma OvertakesExactly(w: World, e: Event, k: Key)
    requires k !in w.overtaken
    ensures k in Step(w, e).overtaken <==> e == Reconcile(k) && MayReconcile(w, k) && k in w.flights
  {
  }

  /** The failure of an outstanding call is recorded for an operation of task t. */
  ghost predicate RecordsFailure(w: World, e: Event, t: TaskId) {
    e.Record? && e.key.0 == t && MayRecord(w, e.key) && w.flights[e.key].outcome == OpFailed
  }

  /** A completed task leaves that state exactly when the failure of a call is recorded for it; in every
      run this is an operation a reconciliation overtook. */
  lemma CompletedLeftExactly(events: seq<Event>, e: Event, t: TaskId)
    requires InState(Run(Init, events), t, Completed)
    ensures var w := Run(Init, events);
            && (!InState(Step(w, e), t, Completed) <==> RecordsFailure(w, e, t))
            && (RecordsFailure(w, e, t) ==> e.key in w.overtaken)
  {
    ReachableWorlds(events);
    var w := Run(Init, events);
    if RecordsFailure(w, e, t) {
      FailureIsOvertaken(w, e.key);
      FailureBlocks(w, e.key);
    } else {
      OtherwiseCompletedStays(w, e, t);
    }
  }

  lemma FailureIsOvertaken(w: World, k: Key)
    requires Orderly(w) && MayRecord(w, k) && w.tasks[k.0].state == Completed
    ensures k in w.overtaken
  {
    assert StateAt(w, k) == OpRunning || k in w.overtaken;
  }

  lemma FailureBlocks(w: World, k: Key)
    requires MayRecord(w, k) && w.tasks[k.0].state == Completed && w.flights[k].outcome == OpFailed
    ensures InState(RecordStep(w, k), k.0, Blocked)
  {
  }

  lemma OtherwiseCompletedStays(w: World, e: Event, t: TaskId)
    requires InState(w, t, Completed) && !RecordsFailure(w, e, t)
    ensures InState(Step(w, e), t, Completed)
  {
    if Administrative(e) || e.Create? {
      QuietStep(w, e);
    } else if e.Act? || e.Accept? {
      ReservationStopped(w, e, t, Completed);
    } else if e.Record? || e.Reconcile? || e.Refuse? {
      ResultCompleted(w, e, t);
    } else if e.Crash? {
      CrashIsSameOps(w);
    }
  }

  lemma ArrivalCompleted(w: World, k: Key, outcome: OpState, t: TaskId)
    requires HasOp(w, k) && InState(w, t, Completed) && !(k.0 == t && outcome == OpFailed)
    ensures InState(Arrive(w, k, outcome), t, Completed)
  {
  }

  lemma ResultCompleted(w: World, e: Event, t: TaskId)
    requires InState(w, t, Completed) && !RecordsFailure(w, e, t) && (e.Record? || e.Reconcile? || e.Refuse?)
    ensures InState(Step(w, e), t, Completed)
  {
    if e.Record? && MayRecord(w, e.key) {
      ArrivalCompleted(w.(flights := w.flights - {e.key}), e.key, w.flights[e.key].outcome, t);
    } else if e.Reconcile? && MayReconcile(w, e.key) {
      ArrivalCompleted(w.(reconciling := w.reconciling - multiset{e.key}, overtaken := Step(w, e).overtaken), e.key,
                       OpSucceeded, t);
    }
  }

  lemma {:induction false} OvertakenGrows(w: World, events: seq<Event>)
    ensures w.overtaken <= Run(w, events).overtaken
    decreases |events|
  {
    if events != [] {
      forall k | k in w.overtaken ensures k in Step(w, events[0]).overtaken {
        OvertakenStays(w, events[0], k);
      }
      OvertakenGrows(Step(w, events[0]), events[1..]);
    }
  }

  lemma OvertakenStays(w: World, e: Event, k: Key)
    requires k in w.overtaken
    ensures k in Step(w, e).overtaken
  {
  }

  /** Completion is final in every run whose reconciliations never overtake an operation of the task. */
  lemma {:induction false} CompletedIsFinal(before: seq<Event>, after: seq<Event>, t: TaskId)
    requires InState(Run(Init, before), t, Completed)
    requires forall k | k in Run(Run(Init, before), after).overtaken :: k.0 != t
    ensures InState(Run(Run(Init, before), after), t, Completed)
    decreases |after|
  {
    if after != [] {
      var w := Run(Init, before);
      OvertakenGrows(w, after);
      CompletedLeftExactly(before, after[0], t);
      RunAppend(Init, before, after[0]);
      CompletedIsFinal(before + [after[0]], after[1..], t);
    }
  }

  lemma {:induction false} RunAppend(w: World, events: seq<Event>, e: Event)
    ensures Run(w, events + [e]) == Step(Run(w, events), e)
    decreases |events|
  {
    if events == [] {
      assert [e][1..] == [];
      assert Run(Step(w, e), []) == Step(w, e);
      assert events + [e] == [e];
    } else {
      assert (events + [e])[0] == events[0] && (events + [e])[1..] == events[1..] + [e];
      RunAppend(Step(w, events[0]), events[1..], e);
    }
  }

  /** The world before event i. */
  ghost function At(w: World, events: seq<Event>, i: nat): World
    requires i <= |events|
  {
    Run(w, events[..i])
  }

  lemma AtNext(w: World, events: seq<Event>, i: nat)
    requires i < |events|
    ensures At(w, events, i + 1) == Step(At(w, events, i), events[i])
  {
    assert events[..i + 1] == events[..i] + [events[i]];
    RunAppend(w, events[..i], events[i]);
  }

  lemma AtEnd(w: World, events: seq<Event>)
    ensures At(w, events, |events|) == Run(w, events)
  {
    assert events[..|events|] == events;
  }

  // ---------------------------------------------------------------------------------------------
  // When a second operation of a project becomes unsettled

  ghost predicate NoClash(w: World) {
    forall k, l :: !Clash(w, k, l)
  }

  /** The result recorded for k is unknown, k had been settled already, and the project has another
      unsettled operation by now. */
  ghost predicate RevivesBeside(w: World, e: Event, l: Key) {
    && e.Record? && MayRecord(w, e.key) && w.flights[e.key].outcome == OpUnknown
    && !Unsettled(StateAt(w, e.key))
    && l != e.key && HasOp(w, l) && w.tasks[l.0].project == w.tasks[e.key.0].project && Unsettled(StateAt(w, l))
  }

  lemma RevivalClashes(w: World, e: Event, l: Key)
    requires Invariant(w) && RevivesBeside(w, e, l)
    ensures !NoClash(Step(w, e))
  {
    RecordArrives(w, e.key);
    PutOps(w, RecordStep(w, e.key), e.key, OpAt(w, e.key).(state := OpUnknown));
    assert Clash(Step(w, e), e.key, l);
  }

  /** A second unsettled operation appears in exactly one way. */
  lemma SecondUnsettledExactly(w: World, e: Event)
    requires Invariant(w) && NoClash(w)
    ensures !NoClash(Step(w, e)) <==> exists l :: RevivesBeside(w, e, l)
  {
    if l :| RevivesBeside(w, e, l) {
      RevivalClashes(w, e, l);
    } else if Administrative(e) || e.Create? {
      QuietStep(w, e);
      QuietOps(w, Step(w, e));
      SameUnsettledNoClash(w, Step(w, e));
    } else if e.Act? || e.Accept? {
      ReservationNoClash(w, e);
    } else if e.Record? {
      if MayRecord(w, e.key) {
        RecordNoClash(w, e.key);
      }
    } else if e.Reconcile? {
      if MayReconcile(w, e.key) {
        ReconcileNoClash(w, e.key);
      }
    } else if e.Refuse? {
      if HasOp(w, (e.t, e.id)) && Decline(w.tasks[e.t], e.id).Some? {
        RefuseNoClash(w, e.t, e.id);
      }
    } else if e.ControlTask? {
      ControlNoClash(w, e.t, e.action, e.businessDone);
    } else if e.Crash? {
      CrashIsSameOps(w);
      SameOpsNoClash(w, CrashStep(w));
    } else {
      OutstandingTasks(w, e);
      OutstandingNoClash(w, Step(w, e));
    }
  }

  lemma SameUnsettledNoClash(w: World, v: World)
    requires NoClash(w)
    requires forall k | HasOp(v, k) && Unsettled(StateAt(v, k)) ::
               HasOp(w, k) && Unsettled(StateAt(w, k)) && v.tasks[k.0].project == w.tasks[k.0].project
    ensures NoClash(v)
  {
    forall k, l | Clash(v, k, l) ensures Clash(w, k, l) {
    }
  }

  lemma StartedAloneNoClash(w: World, v: World, k: Key, op: Operation)
    requires NoClash(w) && (Begun(w, v, k, op) || Listed(w, v, k, op))
    ensures NoClash(v)
  {
    PutOps(w, v, k, op);
    forall l, m | Clash(v, l, m) ensures Clash(w, l, m) {
      UnsettledOpIsSeen(w, l);
      UnsettledOpIsSeen(w, m);
    }
  }

  lemma ActNoClash(w: World, t: TaskId, id: OpId, content: Content, byAgent: bool, approved: bool, growth: bool)
    requires t in w.tasks && NoClash(w)
    ensures NoClash(ActStep(w, t, id, content, byAgent, approved, growth))
  {
    var v := ActStep(w, t, id, content, byAgent, approved, growth);
    ActEffect(w, t, id, content, byAgent, approved, growth);
    if v != w {
      if Listed(w, v, (t, id), Operation(content, OpWaiting)) {
        StartedAloneNoClash(w, v, (t, id), Operation(content, OpWaiting));
      } else {
        StartedAloneNoClash(w, v, (t, id), Operation(content, OpRunning));
      }
    }
  }

  lemma ReservationNoClash(w: World, e: Event)
    requires NoClash(w) && (e.Act? || e.Accept?)
    ensures NoClash(Step(w, e))
  {
    if e.Act? && e.t in w.tasks {
      ActNoClash(w, e.t, e.id, e.content, e.byAgent, false, e.growth);
    } else if e.Accept? && HasOp(w, (e.t, e.id)) {
      var a := w.(accepted := w.accepted + {(e.t, e.id)});
      SameUnsettledNoClash(w, a);
      ActNoClash(a, e.t, e.id, OpAt(w, (e.t, e.id)).content, false, true, e.growth);
    }
  }

  lemma ReconcileNoClash(w: World, k: Key)
    requires NoClash(w) && MayReconcile(w, k)
    ensures NoClash(ReconcileStep(w, k))
  {
    var v := ReconcileStep(w, k);
    ReconcileArrives(w, k);
    PutOps(w, v, k, OpAt(w, k).(state := OpSucceeded));
    SameUnsettledNoClash(w, v);
  }

  lemma RecordNoClash(w: World, k: Key)
    requires InvokedOnce(w) && NoClash(w) && MayRecord(w, k)
    requires forall l :: !RevivesBeside(w, Record(k), l)
    ensures NoClash(RecordStep(w, k))
  {
    var v, outcome := RecordStep(w, k), w.flights[k].outcome;
    RecordArrives(w, k);
    PutOps(w, v, k, OpAt(w, k).(state := outcome));
    forall l, m | Clash(v, l, m) ensures Clash(w, l, m) {
      NoRevival(w, v, k, l, m);
    }
  }

  lemma NoRevival(w: World, v: World, k: Key, l: Key, m: Key)
    requires MayRecord(w, k) && Put(w, v, k, OpAt(w, k).(state := w.flights[k].outcome)) && Clash(v, l, m)
    requires w.flights[k].outcome in {OpSucceeded, OpFailed, OpUnknown}
    requires !RevivesBeside(w, Record(k), l) && !RevivesBeside(w, Record(k), m)
    ensures Clash(w, l, m)
  {
    PutOps(w, v, k, OpAt(w, k).(state := w.flights[k].outcome));
  }

  lemma RefuseNoClash(w: World, t: TaskId, id: OpId)
    requires NoClash(w) && HasOp(w, (t, id)) && Decline(w.tasks[t], id).Some?
    ensures NoClash(Save(w, t, Decline(w.tasks[t], id)))
  {
    var v := Save(w, t, Decline(w.tasks[t], id));
    PutOps(w, v, (t, id), OpAt(w, (t, id)).(state := OpDeclined));
    SameUnsettledNoClash(w, v);
  }

  lemma SameOpsNoClash(w: World, v: World)
    requires NoClash(w) && SameOps(w, v)
    ensures NoClash(v)
  {
    SameOpsAt(w, v);
    SameUnsettledNoClash(w, v);
  }

  lemma ControlNoClash(w: World, t: TaskId, action: Action, businessDone: bool)
    requires NoClash(w)
    ensures NoClash(ControlStep(w, t, action, businessDone))
  {
    if t in w.tasks && Control(w.tasks[t], action, businessDone).Some? {
      ControlEffect(w.tasks[t], action, businessDone);
      SameOpsNoClash(w, ControlStep(w, t, action, businessDone));
    }
  }

  lemma OutstandingTasks(w: World, e: Event)
    requires e.Return? || e.ReadReceipt? || e.RepeatCancel? || e.CancelOwned?
    ensures Step(w, e).tasks == w.tasks
  {
  }

  lemma OutstandingNoClash(w: World, v: World)
    requires NoClash(w) && v.tasks == w.tasks
    ensures NoClash(v)
  {
    SameUnsettledNoClash(w, v);
  }

  // ---------------------------------------------------------------------------------------------
  // Runs in which a reconciliation overtakes a call

  const Write := Content(Capability("checks.start", false, Prepare), "")
  const Fresh := NewTask("shop", "check")

  /** A started operation of a one-task project, and the world it is started in. */
  function Flying(id: OpId): World {
    Init.(tasks := map["task" := Fresh.(operations := map[id := Operation(Write, OpRunning)], state := Running)],
          flights := map[("task", id) := Invoking], invoked := multiset{("task", id)})
  }

  lemma StartAlone(id: OpId)
    ensures Run(Init, [Create("task", "shop", "check"), Act("task", id, Write, true, true)]) == Flying(id)
  {
    var create, act := Create("task", "shop", "check"), Act("task", id, Write, true, true);
    var w := Step(Init, create);
    assert w == Init.(tasks := map["task" := Fresh]);
    StartFresh(id);
    assert [create, act][1..] == [act];
    assert Run(w, [act]) == Run(Step(w, act), []);
  }

  lemma ReserveFresh(id: OpId)
    ensures Reserve(Fresh, id, Write, true, false, false, true) == Started(Flying(id).tasks["task"])
  {
    var running := map[id := Operation(Write, OpRunning)];
    assert map[id := Operation(Write, OpWaiting)][id := Operation(Write, OpRunning)] == running;
  }

  lemma StartFresh(id: OpId)
    ensures Step(Init.(tasks := map["task" := Fresh]), Act("task", id, Write, true, true)) == Flying(id)
  {
    var w := Init.(tasks := map["task" := Fresh]);
    assert !UnsettledWrite(w.tasks, "shop");
    ReserveFresh(id);
    hide Reserve;
    assert map["task" := Fresh]["task" := Flying(id).tasks["task"]] == Flying(id).tasks;
  }

  /** The call of the operation is reconciled before it returns. */
  function Overtaken(id: OpId): World {
    var settled := Fresh.(operations := map[id := Operation(Write, OpSucceeded)], state := WaitingAgent);
    Flying(id).(tasks := map["task" := settled], succeeded := {("task", id)}, overtaken := {("task", id)})
  }

  lemma OvertakeFlying(id: OpId)
    ensures Step(Step(Flying(id), ReadReceipt(("task", id))), Reconcile(("task", id))) == Overtaken(id)
  {
    var k := ("task", id);
    assert Step(Flying(id), ReadReceipt(k)) == Flying(id).(reconciling := multiset{k});
    ReconcileRead(id);
  }

  lemma ReconcileRead(id: OpId)
    ensures var read := Flying(id).(reconciling := multiset{("task", id)});
            MayReconcile(read, ("task", id)) && ReconcileStep(read, ("task", id)) == Overtaken(id)
  {
    var k := ("task", id);
    assert multiset{k} - multiset{k} == multiset{};
    SettleFlying(id);
  }

  lemma SettleFlying(id: OpId)
    ensures Settle(Flying(id).tasks["task"], id, OpSucceeded) == Overtaken(id).tasks["task"]
  {
    var settled := Settle(Flying(id).tasks["task"], id, OpSucceeded);
    assert settled.operations == map[id := Operation(Write, OpSucceeded)];
    assert !AnyUnsettled(settled) && !AnyWaiting(settled);
  }

  lemma RunTwo(w: World, e: Event, f: Event)
    ensures Run(w, [e, f]) == Step(Step(w, e), f)
  {
    assert [e, f][1..] == [f];
    assert Run(Step(w, e), [f]) == Run(Step(Step(w, e), f), []);
  }

  lemma {:induction false} RunConcat(w: World, events: seq<Event>, more: seq<Event>)
    ensures Run(w, events + more) == Run(Run(w, events), more)
    decreases |events|
  {
    if events == [] {
      assert events + more == more;
    } else {
      assert (events + more)[0] == events[0] && (events + more)[1..] == events[1..] + more;
      RunConcat(Step(w, events[0]), events[1..], more);
    }
  }

  lemma OvertakenIsReachable(id: OpId) returns (events: seq<Event>)
    ensures Run(Init, events) == Overtaken(id)
  {
    var start := [Create("task", "shop", "check"), Act("task", id, Write, true, true)];
    var overtake := [ReadReceipt(("task", id)), Reconcile(("task", id))];
    StartAlone(id);
    OvertakeFlying(id);
    RunConcat(Init, start, overtake);
    RunTwo(Flying(id), overtake[0], overtake[1]);
    events := start + overtake;
  }

  lemma FinishOvertaken(id: OpId)
    ensures Step(Overtaken(id), ControlTask("task", Finish, true))
         == Overtaken(id).(tasks := map["task" := Overtaken(id).tasks["task"].(state := Completed)])
  {
    assert FinishAllowed(Overtaken(id).tasks["task"], false, true);
  }

  /** A completed task can be blocked again, by the failure of an operation reconciled too early. */
  lemma CompletedCanBeLeft() returns (events: seq<Event>, e: Event)
    ensures InState(Run(Init, events), "task", Completed)
    ensures InState(Step(Run(Init, events), e), "task", Blocked)
  {
    var k := ("task", "op");
    var before := OvertakenIsReachable("op");
    var finish, fail := ControlTask("task", Finish, true), Return(k, OpFailed);
    FinishOvertaken("op");
    RunConcat(Init, before, [finish, fail]);
    RunTwo(Overtaken("op"), finish, fail);
    events, e := before + [finish, fail], Record(k);
    assert MayRecord(Run(Init, events), k);
  }

  /** The outstanding call of an overtaken operation fails after all. */
  function Undone(id: OpId): World {
    var blocked := Fresh.(operations := map[id := Operation(Write, OpFailed)], state := Blocked);
    Overtaken(id).(tasks := map["task" := blocked], flights := map[])
  }

  lemma OvertakenReturns(id: OpId)
    ensures Step(Overtaken(id), Return(("task", id), OpFailed))
         == Overtaken(id).(flights := map[("task", id) := Returned(OpFailed)])
  {
  }

  lemma ReturnedFails(id: OpId)
    ensures var returned := Overtaken(id).(flights := map[("task", id) := Returned(OpFailed)]);
            MayRecord(returned, ("task", id)) && RecordStep(returned, ("task", id)) == Undone(id)
  {
    var k := ("task", id);
    var returned := Overtaken(id).(flights := map[k := Returned(OpFailed)]);
    assert RecordStep(returned, k).flights == map[];
    assert Settle(returned.tasks["task"], id, OpFailed).operations == map[id := Operation(Write, OpFailed)];
    assert RecordStep(returned, k).tasks == Undone(id).tasks;
  }

  lemma OvertakenFails(id: OpId)
    ensures Step(Step(Overtaken(id), Return(("task", id), OpFailed)), Record(("task", id))) == Undone(id)
  {
    OvertakenReturns(id);
    ReturnedFails(id);
  }

  function Cancelling(id: OpId): World {
    Undone(id).(tasks := map["task" := Undone(id).tasks["task"].(state := Cancelled)],
                cancelling := multiset{Cancellation("task", {id}, {})})
  }

  lemma CancelUndone(id: OpId)
    ensures Step(Undone(id), ControlTask("task", Cancel, true)) == Cancelling(id)
  {
    var cancelled := Undone(id).tasks["task"].(state := Cancelled);
    assert Control(Undone(id).tasks["task"], Cancel, true) == Some(cancelled);
    assert Receipts(cancelled) == {} && cancelled.operations.Keys == {id};
  }

  lemma CarryOutOnly(w: World, all: Cancellation)
    requires w.cancelling == multiset{all}
    ensures Step(w, CancelOwned(all))
         == w.(cancelling := multiset{}, handed := w.handed + Pairs(all.task, all.operations),
               handedReceipts := w.handedReceipts + Pairs(all.task, all.receipts))
  {
    assert multiset{all} - multiset{all} == multiset{};
  }

  /** A success can lose its receipt before the task is cancelled: nothing is pending and nothing was lost,
      yet no receipt was ever handed over for it. */
  lemma ReceiptCanBeMissed() returns (events: seq<Event>)
    ensures var w := Run(Init, events);
            CancellationSettled(w, "task") && ("task", "op") in w.succeeded && ("task", "op") !in w.handedReceipts
  {
    var k := ("task", "op");
    var before := OvertakenIsReachable("op");
    var fail := [Return(k, OpFailed), Record(k)];
    var cancel := [ControlTask("task", Cancel, true), CancelOwned(Cancellation("task", {"op"}, {}))];
    OvertakenFails("op");
    CancelUndone("op");
    RunConcat(Init, before, fail);
    RunTwo(Overtaken("op"), fail[0], fail[1]);
    RunConcat(Init, before + fail, cancel);
    RunTwo(Undone("op"), cancel[0], cancel[1]);
    CarryOutOnly(Cancelling("op"), Cancellation("task", {"op"}, {}));
    assert Pairs("task", {}) == {};
    events := before + fail + cancel;
  }

  /** A second operation is started beside an overtaken one. */
  function Beside(id: OpId, next: OpId): World
    requires id != next
  {
    var w := Overtaken(id);
    var operations := map[id := Operation(Write, OpSucceeded), next := Operation(Write, OpRunning)];
    w.(tasks := map["task" := Fresh.(operations := operations, state := Running)],
       flights := w.flights[("task", next) := Invoking], invoked := w.invoked + multiset{("task", next)})
  }

  lemma ReserveBeside(id: OpId, next: OpId)
    requires id != next
    ensures Reserve(Overtaken(id).tasks["task"], next, Write, true, false, false, true)
         == Started(Beside(id, next).tasks["task"])
  {
    var task := Overtaken(id).tasks["task"];
    var operations := map[id := Operation(Write, OpSucceeded), next := Operation(Write, OpRunning)];
    assert task.operations[next := Operation(Write, OpWaiting)][next := Operation(Write, OpRunning)] == operations;
    assert |task.operations| == 1;
  }

  lemma StartBeside(id: OpId, next: OpId)
    requires id != next
    ensures Step(Overtaken(id), Act("task", next, Write, true, true)) == Beside(id, next)
  {
    var w := Overtaken(id);
    assert !UnsettledWrite(w.tasks, "shop");
    ReserveBeside(id, next);
    assert w.tasks["task" := Beside(id, next).tasks["task"]] == Beside(id, next).tasks;
  }

  lemma BesideRevives(id: OpId, next: OpId)
    requires id != next
    ensures var v := Step(Step(Beside(id, next), Return(("task", id), OpUnknown)), Record(("task", id)));
            Clash(v, ("task", id), ("task", next))
  {
    var k := ("task", id);
    var returned := Step(Beside(id, next), Return(k, OpUnknown));
    assert returned == Beside(id, next).(flights := Beside(id, next).flights[k := Returned(OpUnknown)]);
    assert MayRecord(returned, k);
    var v := RecordStep(returned, k);
    assert v.tasks["task"].operations == map[id := Operation(Write, OpUnknown), next := Operation(Write, OpRunning)];
  }

  /** Two operations of one project can be unsettled at once. */
  lemma TwoCanBeUnsettled() returns (events: seq<Event>)
    ensures Clash(Run(Init, events), ("task", "op"), ("task", "next"))
  {
    var k := ("task", "op");
    var before := OvertakenIsReachable("op");
    var act := Act("task", "next", Write, true, true);
    var revive := [Return(k, OpUnknown), Record(k)];
    StartBeside("op", "next");
    BesideRevives("op", "next");
    RunAppend(Init, before, act);
    RunConcat(Init, before + [act], revive);
    RunTwo(Beside("op", "next"), revive[0], revive[1]);
    events := before + [act] + revive;
  }
}
