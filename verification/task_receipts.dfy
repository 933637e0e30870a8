/** Which successes of a cancelled task are handed over with their receipt.

    A receipt is read where the operation is SUCCEEDED: by an accepted cancellation, by a repeated one, or by a
    success that arrives once the task is cancelled. An operation can leave SUCCEEDED again, in one way only, and
    so a settled cancellation can lack the receipt of something that did succeed. The theorems say exactly when.
 */
module TaskReceipts {
  import opened Collections
  import opened TaskRules
  import opened TaskStore
  import opened TaskProtocol
  import opened TaskSafety

  ghost predicate Succeeded(w: World, k: Key) {
    HasOp(w, k) && StateAt(w, k) == OpSucceeded
  }

  /** A success whose receipt a cancellation of its task finds. */
  ghost predicate CancelledSuccess(w: World, k: Key) {
    Succeeded(w, k) && InState(w, k.0, Cancelled)
  }

  // ---------------------------------------------------------------------------------------------
  // Leaving SUCCEEDED

  /** The call of k turns out not to have succeeded after all. */
  ghost predicate Retracts(w: World, e: Event, k: Key) {
    e == Record(k) && MayRecord(w, k) && w.flights[k].outcome != OpSucceeded
  }

  lemma OtherOpsStay(w: World, v: World, l: Key, op: Operation, k: Key)
    requires Put(w, v, l, op) && Succeeded(w, k) && (l == k ==> op.state == OpSucceeded)
    ensures Succeeded(v, k)
  {
    PutOps(w, v, l, op);
  }

  lemma SameOpsStay(w: World, v: World, k: Key)
    requires SameOps(w, v) && Succeeded(w, k)
    ensures Succeeded(v, k)
  {
    SameOpsAt(w, v);
  }

  lemma ActKeepsSucceeded(w: World, t: TaskId, id: OpId, content: Content, byAgent: bool, approved: bool,
      growth: bool, k: Key)
    requires t in w.tasks && Succeeded(w, k)
    ensures Succeeded(ActStep(w, t, id, content, byAgent, approved, growth), k)
  {
    var v := ActStep(w, t, id, content, byAgent, approved, growth);
    ActEffect(w, t, id, content, byAgent, approved, growth);
    if Listed(w, v, (t, id), Operation(content, OpWaiting)) {
      OtherOpsStay(w, v, (t, id), Operation(content, OpWaiting), k);
    } else if Begun(w, v, (t, id), Operation(content, OpRunning)) {
      OtherOpsStay(w, v, (t, id), Operation(content, OpRunning), k);
    }
  }

  lemma ReservationKeepsSucceeded(w: World, e: Event, k: Key)
    requires (e.Act? || e.Accept?) && Succeeded(w, k)
    ensures Succeeded(Step(w, e), k)
  {
    if e.Act? && e.t in w.tasks {
      ActKeepsSucceeded(w, e.t, e.id, e.content, e.byAgent, false, e.growth, k);
    } else if e.Accept? && HasOp(w, (e.t, e.id)) {
      ActKeepsSucceeded(w.(accepted := w.accepted + {(e.t, e.id)}), e.t, e.id, OpAt(w, (e.t, e.id)).content, false,
                        true, e.growth, k);
    }
  }

  lemma ResultKeepsSucceeded(w: World, e: Event, k: Key)
    requires (e.Record? || e.Reconcile?) && InvokedOnce(w) && Succeeded(w, k) && !Retracts(w, e, k)
    ensures Succeeded(Step(w, e), k)
  {
    if e.Record? && MayRecord(w, e.key) {
      RecordArrives(w, e.key);
      OtherOpsStay(w, Step(w, e), e.key, OpAt(w, e.key).(state := w.flights[e.key].outcome), k);
    } else if e.Reconcile? && MayReconcile(w, e.key) {
      ReconcileArrives(w, e.key);
      OtherOpsStay(w, Step(w, e), e.key, OpAt(w, e.key).(state := OpSucceeded), k);
    }
  }

  lemma RefusalKeepsSucceeded(w: World, e: Event, k: Key)
    requires e.Refuse? && Succeeded(w, k)
    ensures Succeeded(Step(w, e), k)
  {
  }

  lemma ControlKeepsSucceeded(w: World, e: Event, k: Key)
    requires e.ControlTask? && Succeeded(w, k)
    ensures Succeeded(Step(w, e), k)
  {
    if e.t in w.tasks && Control(w.tasks[e.t], e.action, e.businessDone).Some? {
      ControlIsSameOps(w, e.t, e.action, e.businessDone);
      hide Control;
      SameOpsStay(w, Step(w, e), k);
    }
  }

  lemma SuccessStays(w: World, e: Event, k: Key)
    requires InvokedOnce(w) && Succeeded(w, k) && !Retracts(w, e, k)
    ensures Succeeded(Step(w, e), k)
  {
    if Administrative(e) || e.Create? {
      QuietStep(w, e);
      QuietOps(w, Step(w, e));
    } else if e.Act? || e.Accept? {
      ReservationKeepsSucceeded(w, e, k);
    } else if e.Record? || e.Reconcile? {
      ResultKeepsSucceeded(w, e, k);
    } else if e.Refuse? {
      RefusalKeepsSucceeded(w, e, k);
    } else if e.ControlTask? {
      ControlKeepsSucceeded(w, e, k);
    } else if e.Crash? {
      CrashIsSameOps(w);
      SameOpsStay(w, Step(w, e), k);
    } else {
      OutstandingTasks(w, e);
    }
  }

  /** An operation leaves SUCCEEDED exactly when its call is recorded with another outcome; in every run, only an
      operation that a reconciliation overtook. */
  lemma SuccessLeftExactly(events: seq<Event>, e: Event, k: Key)
    requires Succeeded(Run(Init, events), k)
    ensures var w := Run(Init, events);
            && (!Succeeded(Step(w, e), k) <==> Retracts(w, e, k))
            && (Retracts(w, e, k) ==> k in w.overtaken)
  {
    ReachableWorlds(events);
    var w := Run(Init, events);
    if Retracts(w, e, k) {
      RecordArrives(w, k);
      PutOps(w, Step(w, e), k, OpAt(w, k).(state := w.flights[k].outcome));
      assert StateAt(w, k) == OpRunning || k in w.overtaken;
    } else {
      SuccessStays(w, e, k);
    }
  }

  // ---------------------------------------------------------------------------------------------
  // Reading a receipt

  /** The receipt of k has been handed over or is on its way. */
  ghost predicate Held(w: World, k: Key) {
    k in w.handedReceipts || PendingReceipt(w, k)
  }

  /** Event e has the receipt of k handed over. */
  ghost predicate Reads(w: World, e: Event, k: Key) {
    || (e.ControlTask? && e.t == k.0 && e.action == Cancel && Succeeded(w, k)
        && Control(w.tasks[e.t], Cancel, e.businessDone).Some?)
    || (e == RepeatCancel(k.0) && CancelledSuccess(w, k))
    || (e == Record(k) && MayRecord(w, k) && w.flights[k].outcome == OpSucceeded && InState(w, k.0, Cancelled))
    || (e == Reconcile(k) && MayReconcile(w, k) && InState(w, k.0, Cancelled))
  }

  /** The cancellation an event adds to those outstanding, if any. */
  ghost function Added(w: World, e: Event): Option<Cancellation> {
    if e.ControlTask? && e.action == Cancel && e.t in w.tasks && Control(w.tasks[e.t], Cancel, e.businessDone).Some?
    then Some(Whole(w.tasks[e.t], e.t))
    else if e.RepeatCancel? && InState(w, e.t, Cancelled) then Some(Whole(w.tasks[e.t], e.t))
    else if e.Record? && MayRecord(w, e.key) && w.flights[e.key].outcome == OpSucceeded
            && InState(w, e.key.0, Cancelled)
    then Some(Cancellation(e.key.0, {e.key.1}, {e.key.1}))
    else if e.Reconcile? && MayReconcile(w, e.key) && InState(w, e.key.0, Cancelled)
    then Some(Cancellation(e.key.0, {e.key.1}, {e.key.1}))
    else None
  }

  /** The cancellations outstanding in v are those of w and what was added. */
  ghost predicate Extends(w: World, v: World, added: Option<Cancellation>) {
    && v.handedReceipts == w.handedReceipts && v.lost <= w.lost
    && v.cancelling == if added.Some? then w.cancelling + multiset{added.value} else w.cancelling
  }

  lemma ReservationAfter(w: World, e: Event)
    requires e.Act? || e.Accept?
    ensures Extends(w, Step(w, e), None) && Step(w, e).succeeded == w.succeeded
  {
    hide ActStep;
    if e.Act? && e.t in w.tasks {
      ActAfter(w, e.t, e.id, e.content, e.byAgent, false, e.growth);
    } else if e.Accept? && HasOp(w, (e.t, e.id)) {
      ActAfter(w.(accepted := w.accepted + {(e.t, e.id)}), e.t, e.id, OpAt(w, (e.t, e.id)).content, false, true,
               e.growth);
    }
  }

  lemma ActAfter(w: World, t: TaskId, id: OpId, content: Content, byAgent: bool, approved: bool, growth: bool)
    requires t in w.tasks
    ensures var v := ActStep(w, t, id, content, byAgent, approved, growth);
            Extends(w, v, None) && v.succeeded == w.succeeded
  {
    hide Reserve;
  }

  lemma ArrivalAfter(w: World, k: Key, outcome: OpState)
    requires HasOp(w, k)
    ensures Extends(w, Arrive(w, k, outcome),
                    if outcome == OpSucceeded && InState(w, k.0, Cancelled) then
                      Some(Cancellation(k.0, {k.1}, {k.1}))
                    else None)
  {
  }

  lemma RecordAfter(w: World, k: Key)
    requires MayRecord(w, k)
    ensures Extends(w, RecordStep(w, k), Added(w, Record(k)))
  {
    ArrivalAfter(w.(flights := w.flights - {k}), k, w.flights[k].outcome);
  }

  lemma ReconcileAfter(w: World, k: Key)
    requires MayReconcile(w, k)
    ensures Extends(w, ReconcileStep(w, k), Added(w, Reconcile(k)))
  {
    var freed := w.(reconciling := w.reconciling - multiset{k},
                    overtaken := if k in w.flights then w.overtaken + {k} else w.overtaken);
    ArrivalAfter(freed, k, OpSucceeded);
  }

  lemma ResultAfter(w: World, e: Event)
    requires e.Record? || e.Reconcile?
    ensures Extends(w, Step(w, e), Added(w, e))
  {
    if e.Record? && MayRecord(w, e.key) {
      RecordAfter(w, e.key);
    } else if e.Reconcile? && MayReconcile(w, e.key) {
      ReconcileAfter(w, e.key);
    }
  }

  lemma ControlAfter(w: World, e: Event)
    requires e.ControlTask? || e.RepeatCancel?
    ensures Extends(w, Step(w, e), Added(w, e)) && Step(w, e).succeeded == w.succeeded
  {
  }

  lemma NoteAfter(w: World, e: Event)
    requires e.Refuse? || e.Return? || e.ReadReceipt?
    ensures Extends(w, Step(w, e), None) && Step(w, e).succeeded == w.succeeded
  {
  }

  /** Only crashes and cancel_owned take from the outstanding cancellations. */
  lemma OutstandingAfter(w: World, e: Event)
    requires !e.Crash? && !e.CancelOwned?
    ensures Extends(w, Step(w, e), Added(w, e))
  {
    if Administrative(e) || e.Create? {
      QuietStep(w, e);
    } else if e.Act? || e.Accept? {
      ReservationAfter(w, e);
    } else if e.Record? || e.Reconcile? {
      ResultAfter(w, e);
    } else if e.ControlTask? || e.RepeatCancel? {
      ControlAfter(w, e);
    } else {
      NoteAfter(w, e);
    }
  }

  lemma AddedIsRead(w: World, e: Event, k: Key)
    ensures Added(w, e).Some? && Added(w, e).value.task == k.0 && k.1 in Added(w, e).value.receipts <==> Reads(w, e, k)
  {
  }

  /** One step: a receipt that is held stays so, and comes to be held exactly by an event that reads it. */
  lemma HeldAfter(w: World, e: Event, k: Key)
    requires !e.Crash?
    ensures Held(Step(w, e), k) <==> Held(w, k) || Reads(w, e, k)
  {
    var v := Step(w, e);
    AddedIsRead(w, e, k);
    if e.CancelOwned? {
      CarriedOut(w, e.cancellation, k);
    } else {
      OutstandingAfter(w, e);
      HeldIfAdded(w, v, Added(w, e), k);
    }
  }

  lemma HeldIfAdded(w: World, v: World, added: Option<Cancellation>, k: Key)
    requires Extends(w, v, added)
    ensures Held(v, k) <==> Held(w, k) || (added.Some? && added.value.task == k.0 && k.1 in added.value.receipts)
  {
    PendingGrows(w, v);
    if added.Some? {
      assert added.value in v.cancelling;
    }
  }

  lemma CarriedOut(w: World, c: Cancellation, k: Key)
    ensures Held(CancelOwnedStep(w, c), k) <==> Held(w, k)
  {
    var v := CancelOwnedStep(w, c);
    if PendingReceipt(w, k) {
      var d :| d in w.cancelling && d.task == k.0 && k.1 in d.receipts;
      assert d in v.cancelling || d == c;
      assert d == c ==> k in Pairs(c.task, c.receipts);
    }
  }

  // ---------------------------------------------------------------------------------------------
  // Over runs

  ghost predicate CrashFree(events: seq<Event>) {
    forall i | 0 <= i < |events| :: !events[i].Crash?
  }

  ghost predicate ReadBefore(w: World, events: seq<Event>, k: Key, n: nat)
    requires n <= |events|
  {
    n > 0 && (ReadBefore(w, events, k, n - 1) || Reads(At(w, events, n - 1), events[n - 1], k))
  }

  /** That is, some event before n reads the receipt. */
  lemma {:induction false} ReadSomewhere(w: World, events: seq<Event>, k: Key, n: nat)
    requires n <= |events|
    ensures ReadBefore(w, events, k, n) <==> exists i | 0 <= i < n :: Reads(At(w, events, i), events[i], k)
  {
    if n > 0 {
      ReadSomewhere(w, events, k, n - 1);
    }
  }

  lemma {:induction false} HeldExactly(w: World, events: seq<Event>, k: Key, n: nat)
    requires CrashFree(events) && n <= |events|
    ensures Held(At(w, events, n), k) <==> Held(w, k) || ReadBefore(w, events, k, n)
  {
    if n == 0 {
      assert events[..0] == [];
    } else {
      HeldExactly(w, events, k, n - 1);
      AtNext(w, events, n - 1);
      HeldAfter(At(w, events, n - 1), events[n - 1], k);
    }
  }

  lemma SettledIsNotPending(w: World, k: Key)
    requires CancellationSettled(w, k.0)
    ensures Held(w, k) <==> k in w.handedReceipts
  {
  }

  /** In a settled cancellation, the receipt of k was handed over exactly if it was held at some earlier point, or
      an event since then read it; crashes may have come before that point. */
  lemma ReceiptExactly(before: seq<Event>, after: seq<Event>, k: Key)
    requires CrashFree(after) && CancellationSettled(Run(Run(Init, before), after), k.0)
    ensures var w := Run(Init, before);
            k in Run(w, after).handedReceipts <==> Held(w, k) || ReadBefore(w, after, k, |after|)
  {
    var w := Run(Init, before);
    AtEnd(w, after);
    HeldExactly(w, after, k, |after|);
    SettledIsNotPending(Run(w, after), k);
  }

  lemma HeldAfterCrash(before: seq<Event>, k: Key)
    ensures Held(Run(Init, before + [Crash]), k) <==> k in Run(Init, before).handedReceipts
  {
    RunAppend(Init, before, Crash);
  }

  /** A crash takes what was on its way, so after the last crash of a run what counts is what was handed over before
      it and what has been read since. */
  lemma ReceiptAfterLastCrash(before: seq<Event>, after: seq<Event>, k: Key)
    requires CrashFree(after) && CancellationSettled(Run(Run(Init, before + [Crash]), after), k.0)
    ensures var w := Run(Init, before + [Crash]);
            k in Run(w, after).handedReceipts <==>
              k in Run(Init, before).handedReceipts || ReadBefore(w, after, k, |after|)
  {
    ReceiptExactly(before + [Crash], after, k);
    HeldAfterCrash(before, k);
  }

  // ---------------------------------------------------------------------------------------------
  // Without crashes

  lemma LostAfter(w: World, e: Event)
    requires !e.Crash?
    ensures Step(w, e).lost <= w.lost
  {
    if !e.CancelOwned? {
      OutstandingAfter(w, e);
    }
  }

  lemma {:induction false} NothingLost(events: seq<Event>, n: nat)
    requires CrashFree(events) && n <= |events|
    ensures At(Init, events, n).lost == {}
  {
    if n == 0 {
      assert events[..0] == [];
    } else {
      NothingLost(events, n - 1);
      AtNext(Init, events, n - 1);
      LostAfter(At(Init, events, n - 1), events[n - 1]);
    }
  }

  lemma CancelIsSeen(w: World, e: Event)
    requires e.ControlTask? && e.action == Cancel && e.t in w.tasks
    requires Control(w.tasks[e.t], Cancel, e.businessDone).Some?
    ensures InState(Step(w, e), e.t, Cancelled)
  {
  }

  lemma ArrivalSucceeds(w: World, e: Event, k: Key)
    requires InvokedOnce(w)
    requires (e == Record(k) && MayRecord(w, k) && w.flights[k].outcome == OpSucceeded)
             || (e == Reconcile(k) && MayReconcile(w, k))
    ensures Succeeded(Step(w, e), k)
  {
    if e.Record? {
      RecordArrives(w, k);
    } else {
      ReconcileArrives(w, k);
    }
    PutOps(w, Step(w, e), k, OpAt(w, k).(state := OpSucceeded));
  }

  lemma ReadIsCancelledSuccess(w: World, e: Event, k: Key)
    requires InvokedOnce(w) && Reads(w, e, k)
    ensures CancelledSuccess(Step(w, e), k)
  {
    if e.ControlTask? {
      ControlKeepsSucceeded(w, e, k);
      CancelIsSeen(w, e);
    } else {
      StopStays(w, e, k.0, Cancelled);
      if e.RepeatCancel? {
        SuccessStays(w, e, k);
      } else {
        ArrivalSucceeds(w, e, k);
      }
    }
  }

  ghost predicate SeenCancelled(events: seq<Event>, k: Key) {
    exists n | 0 <= n <= |events| :: CancelledSuccess(At(Init, events, n), k)
  }

  lemma HeldIsSeen(events: seq<Event>, k: Key, i: nat)
    requires i < |events| && Reads(At(Init, events, i), events[i], k)
    ensures SeenCancelled(events, k)
  {
    ReachableWorlds(events[..i]);
    AtNext(Init, events, i);
    ReadIsCancelledSuccess(At(Init, events, i), events[i], k);
  }

  lemma SeenIsHeld(events: seq<Event>, k: Key, n: nat)
    requires CrashFree(events) && n <= |events| && CancelledSuccess(At(Init, events, n), k)
    ensures ReadBefore(Init, events, k, |events|)
  {
    ReachableWorlds(events[..n]);
    NothingLost(events, n);
    HeldExactly(Init, events, k, n);
    ReadSomewhere(Init, events, k, n);
    ReadSomewhere(Init, events, k, |events|);
  }

  /** Without crashes, a settled cancellation has handed over the receipt of k exactly if k was SUCCEEDED at some
      point at which its task was cancelled. */
  lemma ReceiptIffSeenCancelled(events: seq<Event>, k: Key)
    requires CrashFree(events) && CancellationSettled(Run(Init, events), k.0)
    ensures k in Run(Init, events).handedReceipts <==> SeenCancelled(events, k)
  {
    assert Run(Init, []) == Init;
    ReceiptExactly([], events, k);
    ReadSomewhere(Init, events, k, |events|);
    if i :| 0 <= i < |events| && Reads(At(Init, events, i), events[i], k) {
      HeldIsSeen(events, k, i);
    }
    if n :| 0 <= n <= |events| && CancelledSuccess(At(Init, events, n), k) {
      SeenIsHeld(events, k, n);
    }
  }

  /** At step i the call of k, which a reconciliation had overtaken, is recorded as not succeeded while its task is
      not cancelled; and k does not succeed again. */
  ghost predicate RetractedForGood(events: seq<Event>, k: Key, i: nat) {
    && i < |events| && Succeeded(At(Init, events, i), k) && Retracts(At(Init, events, i), events[i], k)
    && k in At(Init, events, i).overtaken && !InState(At(Init, events, i), k.0, Cancelled)
    && forall n | i < n <= |events| :: !Succeeded(At(Init, events, n), k)
  }

  lemma {:induction false} CancelledFrom(events: seq<Event>, t: TaskId, n: nat, m: nat)
    requires n <= m <= |events| && InState(At(Init, events, n), t, Cancelled)
    ensures InState(At(Init, events, m), t, Cancelled)
    decreases m
  {
    if n < m {
      CancelledFrom(events, t, n, m - 1);
      AtNext(Init, events, m - 1);
      StopStays(At(Init, events, m - 1), events[m - 1], t, Cancelled);
    }
  }

  /** Whatever counts as having succeeded was SUCCEEDED at some point. */
  lemma {:induction false} SucceededAt(events: seq<Event>, k: Key, n: nat) returns (i: nat)
    requires n <= |events| && k in At(Init, events, n).succeeded
    ensures i <= n && Succeeded(At(Init, events, i), k)
    decreases n
  {
    ReachableWorlds(events[..n]);
    assert events[..0] == [];
    if Succeeded(At(Init, events, n), k) {
      i := n;
    } else {
      AtNext(Init, events, n - 1);
      ReachableWorlds(events[..n - 1]);
      NewSuccess(At(Init, events, n - 1), events[n - 1], k);
      i := SucceededAt(events, k, n - 1);
    }
  }

  lemma ArrivalIsNotNew(w: World, e: Event, k: Key)
    requires (e.Record? || e.Reconcile?) && InvokedOnce(w) && k in Step(w, e).succeeded && k !in w.succeeded
    ensures Succeeded(Step(w, e), k)
  {
    ArrivalSucceeds(w, e, k);
  }

  lemma NewSuccess(w: World, e: Event, k: Key)
    requires InvokedOnce(w) && k in Step(w, e).succeeded && !Succeeded(Step(w, e), k)
    ensures k in w.succeeded
  {
    if Administrative(e) || e.Create? {
      QuietStep(w, e);
    } else if e.Act? || e.Accept? {
      ReservationAfter(w, e);
    } else if e.Record? || e.Reconcile? {
      if k !in w.succeeded {
        ArrivalIsNotNew(w, e, k);
      }
    } else if e.ControlTask? || e.RepeatCancel? {
      ControlAfter(w, e);
    } else if !e.Crash? && !e.CancelOwned? {
      NoteAfter(w, e);
    }
  }

  /** The step after which k is never SUCCEEDED again. */
  lemma {:induction false} LastSuccess(events: seq<Event>, k: Key, n: nat, m: nat) returns (i: nat)
    requires n < m <= |events| && Succeeded(At(Init, events, n), k)
    requires forall j | m <= j <= |events| :: !Succeeded(At(Init, events, j), k)
    ensures n <= i < m && Succeeded(At(Init, events, i), k)
    ensures forall j | i < j <= |events| :: !Succeeded(At(Init, events, j), k)
    decreases m
  {
    if Succeeded(At(Init, events, m - 1), k) {
      i := m - 1;
    } else {
      i := LastSuccess(events, k, n, m - 1);
    }
  }

  /** Without crashes, a settled cancellation lacks the receipt of an operation that did succeed exactly if its
      overtaken call was recorded as not succeeded before the task was cancelled, and it did not succeed again. */
  lemma ReceiptMissedExactly(events: seq<Event>, k: Key)
    requires CrashFree(events) && CancellationSettled(Run(Init, events), k.0) && k in Run(Init, events).succeeded
    ensures k !in Run(Init, events).handedReceipts <==> exists i :: RetractedForGood(events, k, i)
  {
    ReceiptIffSeenCancelled(events, k);
    AtEnd(Init, events);
    if !SeenCancelled(events, k) {
      var i := MissedBecause(events, k);
    } else if i :| RetractedForGood(events, k, i) {
      NotSeenIfRetracted(events, k, i);
    }
  }

  lemma NotSeenIfRetracted(events: seq<Event>, k: Key, i: nat)
    requires RetractedForGood(events, k, i)
    ensures !SeenCancelled(events, k)
  {
    if n :| 0 <= n <= |events| && CancelledSuccess(At(Init, events, n), k) {
      CancelledFrom(events, k.0, n, i);
    }
  }

  lemma MissedBecause(events: seq<Event>, k: Key) returns (i: nat)
    requires !SeenCancelled(events, k) && InState(Run(Init, events), k.0, Cancelled)
    requires k in Run(Init, events).succeeded
    ensures RetractedForGood(events, k, i)
  {
    AtEnd(Init, events);
    var n := SucceededAt(events, k, |events|);
    assert !CancelledSuccess(At(Init, events, |events|), k);
    i := LastSuccess(events, k, n, |events|);
    assert !CancelledSuccess(At(Init, events, i), k);
    AtNext(Init, events, i);
    SuccessLeftExactly(events[..i], events[i], k);
  }
}
