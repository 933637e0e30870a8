/** What the checks of a scenario mean for its cases: what each position demands, when an experiment counts as a
    challenge to its control, and when two invocations count as the same step.
 */
module ScenarioMeaning {
  import opened Collections
  import opened Subsequences
  import opened Scenarios
  import opened ScenarioCases

  // ---------------------------------------------------------------------------------------------
  // Positions

  /** Some case of the invocation must be refused. */
  predicate RefusesSome(cases: map<string, Case>, ids: seq<string>) {
    exists id | id in ids :: id in cases && cases[id].denies
  }

  /** What position k of an invocation demands of its case: the permission, the subject and the resource of the item,
      the occurrence, and outside a batch no obligation. In a batch the obligation is that of its strategy: the effect
      must be absent if the case is refused, or if the batch is atomic and some case of it is. */
  predicate Meets(s: Scenario, slot: Slot, k: nat, c: Case, refuses: bool)
    requires k < |slot.invocation.items|
  {
    var item, batch := slot.invocation.items[k], slot.invocation.batch;
    && c.permission == item.permission && c.subject == item.subject && c.resource == item.resource
    && c.occurrence == Some(Occurrence(s.fingerprint, slot.experiment.id, slot.invocation.id, k))
    && (batch.None? ==> c.invocationKind.None?)
    && (batch.Some? ==>
          && c.invocationKind == Some(batch.value.strategy)
          && c.effectAbsent.Some?
          && (c.effectAbsent.value <==> c.denies || (batch.value.strategy == Atomic && refuses)))
  }

  lemma MeetsExactly(s: Scenario, slot: Slot, k: nat, c: Case, refuses: bool)
    requires k < |slot.invocation.items|
    ensures ItemMatches(s, slot, k, c, refuses) <==> Meets(s, slot, k, c, refuses)
  {
  }

  lemma RefusesExactly(cases: map<string, Case>, ids: seq<string>)
    requires AllKnown(cases, ids)
    ensures Mixed(cases, ids) <==> RefusesSome(cases, ids)
  {
    if id :| id in ids && id in cases && cases[id].denies {
      var k :| 0 <= k < |ids| && ids[k] == id;
      assert cases[ids[k]].denies;
    }
  }

  /** An invocation matches its cases exactly if there is one for each item, each meets its position, and nothing in a
      normal experiment is refused. */
  lemma SlotMatchesExactly(s: Scenario, cases: map<string, Case>, slot: Slot)
    ensures var ids := Ids(s, slot);
            SlotMatches(s, cases, slot) <==>
              && |ids| == |slot.invocation.items|
              && (forall k | 0 <= k < |ids| :: ids[k] in cases)
              && (slot.experiment.kind == Normal ==> !RefusesSome(cases, ids))
              && (forall k | 0 <= k < |ids| :: Meets(s, slot, k, cases[ids[k]], RefusesSome(cases, ids)))
  {
    var ids := Ids(s, slot);
    if |ids| == |slot.invocation.items| && AllKnown(cases, ids) {
      RefusesExactly(cases, ids);
      forall k | 0 <= k < |ids|
        ensures ItemMatches(s, slot, k, cases[ids[k]], Mixed(cases, ids))
            <==> Meets(s, slot, k, cases[ids[k]], RefusesSome(cases, ids))
      {
        MeetsExactly(s, slot, k, cases[ids[k]], Mixed(cases, ids));
      }
    }
  }

  /** So in an accepted scenario the case of each position meets it. */
  lemma PositionIsMet(s: Scenario, cases: map<string, Case>, permissions: map<Permission, Mapped>, n: nat, k: nat)
    requires Accepted(s.document) && CasesAccepted(s, cases, permissions) && Position(s, n, k)
    ensures var slot := Slots(s.document.experiments)[n];
            && |Ids(s, slot)| == |slot.invocation.items| && Ids(s, slot)[k] in cases
            && Meets(s, slot, k, cases[Ids(s, slot)[k]], RefusesSome(cases, Ids(s, slot)))
            && (slot.experiment.kind == Normal ==> !cases[Ids(s, slot)[k]].denies)
  {
    var slot := Slots(s.document.experiments)[n];
    assert SlotMatches(s, cases, slot);
    SlotMatchesExactly(s, cases, slot);
    assert Ids(s, slot)[k] in Ids(s, slot);
  }

  // ---------------------------------------------------------------------------------------------
  // Coverage

  function KeyOf(f: Frozen): (string, string) {
    (f.experiment, f.invocation)
  }

  function Keys(fs: seq<Frozen>): (r: seq<(string, string)>)
    ensures |r| == |fs| && forall i | 0 <= i < |r| :: r[i] == KeyOf(fs[i])
  {
    seq(|fs|, i requires 0 <= i < |fs| => KeyOf(fs[i]))
  }

  lemma {:induction false} SlotIsThere(es: seq<Experiment>, e: Experiment, v: Invocation)
    requires e in es && v in e.invocations
    ensures Slot(e, v) in Slots(es)
    decreases |es|
  {
    var init, last := es[..|es| - 1], es[|es| - 1];
    if e in init {
      SlotIsThere(init, e, v);
    } else {
      assert e == last;
      var j :| 0 <= j < |e.invocations| && e.invocations[j] == v;
      assert SlotsOf(last, |last.invocations|)[j] == Slot(e, v);
    }
  }

  /** The key is that of an invocation of the document. */
  ghost predicate IsKey(es: seq<Experiment>, key: (string, string)) {
    exists e, v | e in es && v in e.invocations :: key == (e.id, v.id)
  }

  /** The same, of one of these slots. */
  predicate IsSlotKey(slots: seq<Slot>, key: (string, string)) {
    exists n | 0 <= n < |slots| :: key == (slots[n].experiment.id, slots[n].invocation.id)
  }

  /** The frozen invocations cover the document exactly if their keys are those of its invocations, and as many as
      there are frozen invocations. */
  lemma CoveredExactly(s: Scenario)
    ensures var keys := set key | key in Keys(s.invocations);
            Covered(s) <==>
              (forall key :: key in keys <==> IsKey(s.document.experiments, key)) && |keys| == |s.invocations|
  {
    var slots := Slots(s.document.experiments);
    forall key ensures IsKey(s.document.experiments, key) <==> IsSlotKey(slots, key) {
      KeyOfSlot(s.document.experiments, key);
    }
    CountedOnce(Keys(s.invocations));
    KeysCover(s, slots);
    hide Covered, IsKey, IsSlotKey;
  }

  lemma KeyOfSlot(es: seq<Experiment>, key: (string, string))
    ensures IsKey(es, key) <==> IsSlotKey(Slots(es), key)
  {
    if e, v :| e in es && v in e.invocations && key == (e.id, v.id) {
      SlotIsThere(es, e, v);
      var n :| 0 <= n < |Slots(es)| && Slots(es)[n] == Slot(e, v);
      assert key == (Slots(es)[n].experiment.id, Slots(es)[n].invocation.id);
    }
    if n :| 0 <= n < |Slots(es)| && key == (Slots(es)[n].experiment.id, Slots(es)[n].invocation.id) {
      SlotsFrom(es, n);
    }
  }

  function SlotKey(slot: Slot): (string, string) {
    (slot.experiment.id, slot.invocation.id)
  }

  lemma AskedExactly(f: Frozen, slots: seq<Slot>)
    ensures IsAsked(f, slots) <==> IsSlotKey(slots, KeyOf(f))
  {
  }

  lemma FrozenExactly(fs: seq<Frozen>, slot: Slot)
    ensures IsFrozen(fs, slot) <==> SlotKey(slot) in Keys(fs)
  {
    if i :| 0 <= i < |fs| && Names(fs[i], slot) {
      assert Keys(fs)[i] == SlotKey(slot);
    }
    if SlotKey(slot) in Keys(fs) {
      var i :| 0 <= i < |fs| && Keys(fs)[i] == SlotKey(slot);
      assert Names(fs[i], slot);
    }
  }

  lemma SlotKeyIsThere(slots: seq<Slot>, n: nat)
    requires n < |slots|
    ensures IsSlotKey(slots, SlotKey(slots[n]))
  {
  }

  lemma KeysMeet(keys: seq<(string, string)>, slots: seq<Slot>)
    ensures (forall key :: key in keys <==> IsSlotKey(slots, key))
        <==> && (forall i | 0 <= i < |keys| :: IsSlotKey(slots, keys[i]))
             && (forall n | 0 <= n < |slots| :: SlotKey(slots[n]) in keys)
  {
    if forall key :: key in keys <==> IsSlotKey(slots, key) {
      forall i | 0 <= i < |keys| ensures IsSlotKey(slots, keys[i]) {
        assert keys[i] in keys;
      }
      forall n | 0 <= n < |slots| ensures SlotKey(slots[n]) in keys {
        SlotKeyIsThere(slots, n);
      }
    }
  }

  lemma DifferentKeys(fs: seq<Frozen>)
    ensures (forall i, j | 0 <= i < j < |fs| :: Keys(fs)[i] != Keys(fs)[j])
        <==> forall i, j | 0 <= i < j < |fs| ::
               fs[i].experiment != fs[j].experiment || fs[i].invocation != fs[j].invocation
  {
    forall i, j | 0 <= i < j < |fs|
      ensures Keys(fs)[i] != Keys(fs)[j]
          <==> fs[i].experiment != fs[j].experiment || fs[i].invocation != fs[j].invocation
    {
    }
  }

  lemma KeysCover(s: Scenario, slots: seq<Slot>)
    requires slots == Slots(s.document.experiments)
    ensures var keys := Keys(s.invocations);
            Covered(s) <==>
              && (forall key :: key in keys <==> IsSlotKey(slots, key))
              && (forall i, j | 0 <= i < j < |keys| :: keys[i] != keys[j])
  {
    var keys := Keys(s.invocations);
    hide IsSlotKey, IsAsked, IsFrozen;
    forall i | 0 <= i < |keys| ensures IsSlotKey(slots, keys[i]) <==> IsAsked(s.invocations[i], slots) {
      AskedExactly(s.invocations[i], slots);
    }
    forall n | 0 <= n < |slots| ensures SlotKey(slots[n]) in keys <==> IsFrozen(s.invocations, slots[n]) {
      FrozenExactly(s.invocations, slots[n]);
    }
    KeysMeet(keys, slots);
    DifferentKeys(s.invocations);
  }

  // ---------------------------------------------------------------------------------------------
  // Challenges

  /** The case goes through the same flow to the same resource, with the same effects. */
  predicate GoesAs(a: Case, b: Case) {
    a.flow == b.flow && a.resource == b.resource && a.effects == b.effects
  }

  /** The effect must be absent: as the batch demands or, outside one, because the permission refuses it. */
  predicate MustFail(c: Case) {
    c.effectAbsent == Some(true) || (c.effectAbsent.None? && c.denies)
  }

  ghost predicate IsControlCase(s: Scenario, control: Experiment, id: string) {
    exists v | v in control.invocations :: id in Ids(s, Slot(control, v))
  }

  /** The control has a case that goes the same way, must not fail and is a regression. */
  ghost predicate IsProvoked(s: Scenario, cases: map<string, Case>, control: Experiment, c: Case) {
    exists id | id in cases :: IsControlCase(s, control, id) && GoesAs(cases[id], c) && !MustFail(cases[id])
                               && cases[id].regression
  }

  ghost predicate GoAs(cases: map<string, Case>, a: seq<string>, b: seq<string>) {
    |a| == |b| && forall k | 0 <= k < |a| :: a[k] in cases && b[k] in cases && GoesAs(cases[a[k]], cases[b[k]])
  }

  lemma ProvokedExactly(s: Scenario, cases: map<string, Case>, control: Experiment, c: Case)
    ensures Counterpart(s, cases, control, c) <==> IsProvoked(s, cases, control, c)
  {
    if Counterpart(s, cases, control, c) {
      var j, k :| 0 <= j < |control.invocations| && 0 <= k < |Ids(s, Slot(control, control.invocations[j]))|
                  && var id := Ids(s, Slot(control, control.invocations[j]))[k];
                     id in cases && SameEffect(cases[id], c) && !cases[id].ExpectsAbsence() && cases[id].regression;
      var id := Ids(s, Slot(control, control.invocations[j]))[k];
      assert control.invocations[j] in control.invocations && id in Ids(s, Slot(control, control.invocations[j]));
      assert IsControlCase(s, control, id);
    }
    if id :| id in cases && IsControlCase(s, control, id) && GoesAs(cases[id], c) && !MustFail(cases[id])
             && cases[id].regression {
      var v :| v in control.invocations && id in Ids(s, Slot(control, v));
      var j :| 0 <= j < |control.invocations| && control.invocations[j] == v;
      var k :| 0 <= k < |Ids(s, Slot(control, control.invocations[j]))|
               && Ids(s, Slot(control, control.invocations[j]))[k] == id;
    }
  }

  /** An invocation challenges its control exactly if, in a batch, the control has an invocation with the same batch
      whose cases go the same way one by one; and, outside one, each case that must fail has a case of the control
      that goes the same way and must not. */
  lemma ChallengedExactly(s: Scenario, cases: map<string, Case>, slot: Slot)
    requires Accepted(s.document) && slot.experiment in s.document.experiments && !slot.experiment.kind.Normal?
    requires forall id | id in Ids(s, slot) :: id in cases
    ensures var control := ControlOf(s.document, slot.experiment);
            Challenged(s, cases, slot) <==>
              if slot.invocation.batch.Some? then
                exists v | v in control.invocations ::
                  v.batch == slot.invocation.batch && GoAs(cases, Ids(s, Slot(control, v)), Ids(s, slot))
              else
                forall id | id in Ids(s, slot) && MustFail(cases[id]) :: IsProvoked(s, cases, control, cases[id])
  {
    var control := ControlOf(s.document, slot.experiment);
    if slot.invocation.batch.Some? {
      if Challenged(s, cases, slot) {
        var j :| 0 <= j < |control.invocations| && control.invocations[j].batch == slot.invocation.batch
                 && SameEffects(cases, Ids(s, Slot(control, control.invocations[j])), Ids(s, slot));
        assert control.invocations[j] in control.invocations;
      }
      if v :| v in control.invocations && v.batch == slot.invocation.batch
              && GoAs(cases, Ids(s, Slot(control, v)), Ids(s, slot)) {
        var j :| 0 <= j < |control.invocations| && control.invocations[j] == v;
        assert SameEffects(cases, Ids(s, Slot(control, control.invocations[j])), Ids(s, slot));
      }
    } else {
      forall c ensures Counterpart(s, cases, control, c) <==> IsProvoked(s, cases, control, c) {
        ProvokedExactly(s, cases, control, c);
      }
      hide Counterpart, IsProvoked;
      forall k | 0 <= k < |Ids(s, slot)| ensures Ids(s, slot)[k] in Ids(s, slot) {
      }
    }
  }

  // ---------------------------------------------------------------------------------------------
  // Steps

  /** Two invocations are the same step: the same batch and, item by item, the same action on the same resource, by
      the same subject if subjects count. */
  predicate SameStep(permissions: map<Permission, Mapped>, a: Invocation, b: Invocation, subjects: bool)
    requires forall i | i in a.items :: i.permission in permissions
    requires forall i | i in b.items :: i.permission in permissions
  {
    && a.batch == b.batch && |a.items| == |b.items|
    && forall k | 0 <= k < |a.items| ::
         && permissions[a.items[k].permission].action == permissions[b.items[k].permission].action
         && a.items[k].resource == b.items[k].resource && a.items[k].resourceFrom == b.items[k].resourceFrom
         && (subjects ==> a.items[k].subject == b.items[k].subject)
  }

  lemma ItemsAreKnown(permissions: map<Permission, Mapped>, e: Experiment, i: nat)
    requires Known(permissions, e) && i < |e.invocations|
    ensures forall x | x in e.invocations[i].items :: x.permission in permissions
  {
    forall x | x in e.invocations[i].items ensures x.permission in permissions {
      var j :| 0 <= j < |e.invocations[i].items| && e.invocations[i].items[j] == x;
    }
  }

  lemma StepsExactly(permissions: map<Permission, Mapped>, e: Experiment, f: Experiment, i: nat, j: nat, subjects: bool)
    requires Known(permissions, e) && Known(permissions, f) && i < |e.invocations| && j < |f.invocations|
    requires forall x | x in e.invocations[i].items :: x.permission in permissions
    requires forall x | x in f.invocations[j].items :: x.permission in permissions
    ensures Steps(permissions, e, subjects)[i] == Steps(permissions, f, subjects)[j]
        <==> SameStep(permissions, e.invocations[i], f.invocations[j], subjects)
  {
    var a, b := Steps(permissions, e, subjects)[i].members, Steps(permissions, f, subjects)[j].members;
    assert |a| == |e.invocations[i].items| && |b| == |f.invocations[j].items|;
    var x, y := e.invocations[i].items, f.invocations[j].items;
    assert forall k | 0 <= k < |a| :: a[k] == Member(permissions[x[k].permission].action,
                                                     if subjects then x[k].subject else None, x[k].resource,
                                                     x[k].resourceFrom);
    assert forall k | 0 <= k < |b| :: b[k] == Member(permissions[y[k].permission].action,
                                                     if subjects then y[k].subject else None, y[k].resource,
                                                     y[k].resourceFrom);
    if SameStep(permissions, e.invocations[i], f.invocations[j], subjects) {
      assert forall k | 0 <= k < |a| :: a[k] == b[k];
      assert a == b;
    }
    if a == b {
      assert forall k | 0 <= k < |a| :: a[k] == b[k];
    }
  }
}
