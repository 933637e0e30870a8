/** Outcomes and goals over all runs: what a task is finished with was assessed for the goal it has.
 */
module TaskGoals {
  import opened Collections
  import opened TaskRules
  import opened TaskStore
  import opened TaskProtocol
  import opened TaskSafety

  /** A task has an outcome only if it had it before, for the same goal, or an assessment is published now. */
  predicate Inherits(t: Task, u: Task, published: Option<Outcome>) {
    u.outcome.Some? ==>
      || (u.outcome == t.outcome && u.goal == t.goal)
      || (u.outcome == published && u.outcome.value.goal == u.goal)
  }

  function Published(e: Event, t: TaskId): Option<Outcome> {
    if e.Assess? && e.t == t then Some(e.assessment) else None
  }

  lemma UpdateInherits(task: Task, e: Event)
    requires Administrative(e) && TaskUpdate(task, e).Some?
    ensures Inherits(task, TaskUpdate(task, e).value, Published(e, e.t))
  {
  }

  lemma ReserveInherits(t: Task, id: OpId, content: Content, byAgent: bool, approved: bool, unsettled: bool,
                        growth: bool)
    ensures var r := Reserve(t, id, content, byAgent, approved, unsettled, growth);
            r.Registered? || r.Started? ==> r.task.outcome == t.outcome && r.task.goal == t.goal
  {
  }

  lemma ActInherits(w: World, t: TaskId, id: OpId, content: Content, byAgent: bool, approved: bool, growth: bool,
                    u: TaskId)
    requires t in w.tasks && u in w.tasks
    ensures u in ActStep(w, t, id, content, byAgent, approved, growth).tasks
    ensures Inherits(w.tasks[u], ActStep(w, t, id, content, byAgent, approved, growth).tasks[u], None)
  {
    ReserveInherits(w.tasks[t], id, content, byAgent, approved, UnsettledWrite(w.tasks, w.tasks[t].project), growth);
  }

  lemma ReservationInherits(w: World, e: Event, u: TaskId)
    requires (e.Act? || e.Accept?) && u in w.tasks
    ensures u in Step(w, e).tasks && Inherits(w.tasks[u], Step(w, e).tasks[u], None)
  {
    if e.Act? && e.t in w.tasks {
      ActInherits(w, e.t, e.id, e.content, e.byAgent, false, e.growth, u);
    } else if e.Accept? && HasOp(w, (e.t, e.id)) {
      ActInherits(w.(accepted := w.accepted + {(e.t, e.id)}), e.t, e.id, OpAt(w, (e.t, e.id)).content, false, true,
                  e.growth, u);
    }
  }

  lemma ArriveInherits(w: World, k: Key, outcome: OpState, u: TaskId)
    requires HasOp(w, k) && u in w.tasks
    ensures u in Arrive(w, k, outcome).tasks && Inherits(w.tasks[u], Arrive(w, k, outcome).tasks[u], None)
  {
    assert Settle(w.tasks[k.0], k.1, outcome).outcome == w.tasks[k.0].outcome;
  }

  lemma ResultInherits(w: World, e: Event, u: TaskId)
    requires (e.Record? || e.Reconcile?) && u in w.tasks
    ensures u in Step(w, e).tasks && Inherits(w.tasks[u], Step(w, e).tasks[u], None)
  {
    if e.Record? && MayRecord(w, e.key) {
      ArriveInherits(w.(flights := w.flights - {e.key}), e.key, w.flights[e.key].outcome, u);
    } else if e.Reconcile? && MayReconcile(w, e.key) {
      ArriveInherits(w.(reconciling := w.reconciling - multiset{e.key},
                        overtaken := Step(w, e).overtaken), e.key, OpSucceeded, u);
    }
  }

  lemma SaveInherits(w: World, t: TaskId, value: Option<Task>, u: TaskId)
    requires t in w.tasks && u in w.tasks && (value.Some? ==> Inherits(w.tasks[t], value.value, None))
    ensures u in Save(w, t, value).tasks && Inherits(w.tasks[u], Save(w, t, value).tasks[u], None)
  {
  }

  lemma RefusalInherits(w: World, e: Event, u: TaskId)
    requires e.Refuse? && u in w.tasks
    ensures u in Step(w, e).tasks && Inherits(w.tasks[u], Step(w, e).tasks[u], None)
  {
    if HasOp(w, (e.t, e.id)) {
      SaveInherits(w, e.t, Decline(w.tasks[e.t], e.id), u);
    }
  }

  lemma ControlKeepsOutcome(task: Task, action: Action, businessDone: bool)
    requires Control(task, action, businessDone).Some?
    ensures Inherits(task, Control(task, action, businessDone).value, None)
  {
  }

  lemma ControlInherits(w: World, e: Event, u: TaskId)
    requires e.ControlTask? && u in w.tasks
    ensures u in Step(w, e).tasks && Inherits(w.tasks[u], Step(w, e).tasks[u], None)
  {
    if e.t in w.tasks && Control(w.tasks[e.t], e.action, e.businessDone).Some? {
      ControlKeepsOutcome(w.tasks[e.t], e.action, e.businessDone);
      SaveInherits(w, e.t, Control(w.tasks[e.t], e.action, e.businessDone), u);
    }
  }

  lemma CrashInherits(w: World, u: TaskId)
    requires u in w.tasks
    ensures u in CrashStep(w).tasks && Inherits(w.tasks[u], CrashStep(w).tasks[u], None)
  {
  }

  /** One event, for a task that is there already. */
  lemma StepInherits(w: World, e: Event, u: TaskId)
    requires u in w.tasks
    ensures u in Step(w, e).tasks && Inherits(w.tasks[u], Step(w, e).tasks[u], Published(e, u))
  {
    if Administrative(e) {
      if e.t == u && TaskUpdate(w.tasks[u], e).Some? {
        UpdateInherits(w.tasks[u], e);
      }
    } else if e.Act? || e.Accept? {
      ReservationInherits(w, e, u);
    } else if e.Record? || e.Reconcile? {
      ResultInherits(w, e, u);
    } else if e.Refuse? {
      RefusalInherits(w, e, u);
    } else if e.ControlTask? {
      ControlInherits(w, e, u);
    } else if e.Crash? {
      CrashInherits(w, u);
    } else if !e.Create? {
      OutstandingTasks(w, e);
    }
  }

  lemma NewTasksHaveNoOutcome(w: World, e: Event, u: TaskId)
    requires u !in w.tasks && u in Step(w, e).tasks
    ensures Step(w, e).tasks[u].outcome.None?
  {
    if Administrative(e) || e.Create? {
    } else if e.Act? && e.t in w.tasks {
      ActEffect(w, e.t, e.id, e.content, e.byAgent, false, e.growth);
    } else if e.Accept? && HasOp(w, (e.t, e.id)) {
      ActEffect(w.(accepted := w.accepted + {(e.t, e.id)}), e.t, e.id, OpAt(w, (e.t, e.id)).content, false, true,
                e.growth);
    } else if e.Crash? {
      CrashIsSameOps(w);
    }
  }

  ghost predicate HasOutcome(w: World, t: TaskId, outcome: Outcome) {
    t in w.tasks && w.tasks[t].outcome == Some(outcome) && w.tasks[t].goal == outcome.goal
  }

  /** Where the outcome of a task comes from, in one step. */
  lemma OutcomeStep(w: World, e: Event, t: TaskId, outcome: Outcome)
    requires t in Step(w, e).tasks && Step(w, e).tasks[t].outcome == Some(outcome)
    ensures || (e == Assess(t, outcome) && HasOutcome(Step(w, e), t, outcome))
            || (t in w.tasks && w.tasks[t].outcome == Some(outcome)
                && (HasOutcome(w, t, outcome) ==> HasOutcome(Step(w, e), t, outcome)))
  {
    if t in w.tasks {
      StepInherits(w, e, t);
    } else {
      NewTasksHaveNoOutcome(w, e, t);
    }
  }

  /** In every run, an outcome a task has was assessed at some step i for the goal the task has had ever since. */
  lemma {:induction false} OutcomeWasAssessed(events: seq<Event>, t: TaskId, n: nat, outcome: Outcome) returns (i: nat)
    requires n <= |events| && t in At(Init, events, n).tasks && At(Init, events, n).tasks[t].outcome == Some(outcome)
    ensures i < n && events[i] == Assess(t, outcome)
    ensures forall m | i < m <= n :: HasOutcome(At(Init, events, m), t, outcome)
    decreases n
  {
    assert events[..0] == [];
    var w := At(Init, events, n - 1);
    AtNext(Init, events, n - 1);
    OutcomeStep(w, events[n - 1], t, outcome);
    if events[n - 1] == Assess(t, outcome) && HasOutcome(At(Init, events, n), t, outcome) {
      i := n - 1;
    } else {
      i := OutcomeWasAssessed(events, t, n - 1, outcome);
    }
  }

  /** A task that the agent's supervisor finishes has an outcome that was assessed as fulfilled, for the goal it has
      had ever since that assessment. */
  lemma FinishedIsFulfilled(events: seq<Event>, t: TaskId, businessDone: bool) returns (i: nat)
    requires t in Run(Init, events).tasks && !InState(Run(Init, events), t, Completed)
    requires InState(Step(Run(Init, events), ControlTask(t, FinishFulfilled, businessDone)), t, Completed)
    ensures var goal := Run(Init, events).tasks[t].goal;
            && i < |events| && events[i] == Assess(t, Outcome(true, goal))
            && forall m | i < m <= |events| :: HasOutcome(At(Init, events, m), t, Outcome(true, goal))
  {
    AtEnd(Init, events);
    var w := Run(Init, events);
    assert FinishAllowed(w.tasks[t], true, businessDone);
    i := OutcomeWasAssessed(events, t, |events|, Outcome(true, w.tasks[t].goal));
  }
}
