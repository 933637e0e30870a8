/** The cases of a frozen scenario: each item of each invocation has exactly one case, and no case is left over.
 */
module ScenarioCases {
  import opened Collections
  import opened Scenarios

  /** An invocation in its experiment. */
  datatype Slot = Slot(experiment: Experiment, invocation: Invocation)

  function SlotsOf(e: Experiment, n: nat): (r: seq<Slot>)
    requires n <= |e.invocations|
    ensures |r| == n && forall j | 0 <= j < n :: r[j] == Slot(e, e.invocations[j])
  {
    seq(n, j requires 0 <= j < n => Slot(e, e.invocations[j]))
  }

  /** All invocations, experiment by experiment. */
  function Slots(es: seq<Experiment>): seq<Slot> {
    if es == [] then []
    else
      var last := es[|es| - 1];
      Slots(es[..|es| - 1]) + SlotsOf(last, |last.invocations|)
  }

  predicate Names(f: Frozen, slot: Slot) {
    f.experiment == slot.experiment.id && f.invocation == slot.invocation.id
  }

  function FrozenCases(fs: seq<Frozen>, slot: Slot): seq<string> {
    if fs == [] then []
    else if Names(fs[0], slot) then fs[0].cases
    else FrozenCases(fs[1..], slot)
  }

  function Ids(s: Scenario, slot: Slot): seq<string> {
    FrozenCases(s.invocations, slot)
  }

  predicate IsAsked(f: Frozen, slots: seq<Slot>) {
    exists n | 0 <= n < |slots| :: Names(f, slots[n])
  }

  predicate IsFrozen(fs: seq<Frozen>, slot: Slot) {
    exists i | 0 <= i < |fs| :: Names(fs[i], slot)
  }

  /** The frozen invocations are exactly those of the document, each once. */
  predicate Covered(s: Scenario) {
    var slots := Slots(s.document.experiments);
    && (forall i, j | 0 <= i < j < |s.invocations| ::
          || s.invocations[i].experiment != s.invocations[j].experiment
          || s.invocations[i].invocation != s.invocations[j].invocation)
    && (forall i | 0 <= i < |s.invocations| :: IsAsked(s.invocations[i], slots))
    && (forall n | 0 <= n < |slots| :: IsFrozen(s.invocations, slots[n]))
  }

  predicate AllKnown(cases: map<string, Case>, ids: seq<string>) {
    forall k | 0 <= k < |ids| :: ids[k] in cases
  }

  predicate Mixed(cases: map<string, Case>, ids: seq<string>)
    requires AllKnown(cases, ids)
  {
    exists k | 0 <= k < |ids| :: cases[ids[k]].denies
  }

  function OccurrenceAt(s: Scenario, slot: Slot, index: nat): Occurrence {
    Occurrence(s.fingerprint, slot.experiment.id, slot.invocation.id, index)
  }

  predicate ItemMatches(s: Scenario, slot: Slot, index: nat, c: Case, mixed: bool)
    requires index < |slot.invocation.items|
  {
    var item := slot.invocation.items[index];
    && c.permission == item.permission
    && c.occurrence == Some(OccurrenceAt(s, slot, index)) && c.subject == item.subject && c.resource == item.resource
    && (match slot.invocation.batch
        case None => c.invocationKind.None?
        case Some(b) =>
          && c.invocationKind == Some(b.strategy)
          && c.effectAbsent == Some((b.strategy.Atomic? && mixed) || c.denies))
  }

  predicate SlotMatches(s: Scenario, cases: map<string, Case>, slot: Slot) {
    var ids := Ids(s, slot);
    && |ids| == |slot.invocation.items| && AllKnown(cases, ids)
    && !(slot.experiment.kind.Normal? && Mixed(cases, ids))
    && forall k | 0 <= k < |ids| :: ItemMatches(s, slot, k, cases[ids[k]], Mixed(cases, ids))
  }

  function Set(ids: seq<string>): set<string> {
    set id | id in ids
  }

  function Union(s: Scenario, slots: seq<Slot>): set<string> {
    if slots == [] then {} else Union(s, slots[..|slots| - 1]) + Set(Ids(s, slots[|slots| - 1]))
  }

  function OccurringIds(cases: map<string, Case>): set<string> {
    set id | id in cases && cases[id].occurrence.Some?
  }

  /** What makes one case the normal counterpart of another. */
  predicate SameEffect(a: Case, b: Case) {
    a.flow == b.flow && a.resource == b.resource && a.effects == b.effects
  }

  predicate SameEffects(cases: map<string, Case>, a: seq<string>, b: seq<string>) {
    |a| == |b| && forall k | 0 <= k < |a| :: a[k] in cases && b[k] in cases && SameEffect(cases[a[k]], cases[b[k]])
  }

  /** A case that must be refused has a normal case of the control with the same effect that must not. */
  predicate Counterpart(s: Scenario, cases: map<string, Case>, control: Experiment, c: Case) {
    exists j, k | 0 <= j < |control.invocations| && 0 <= k < |Ids(s, Slot(control, control.invocations[j]))| ::
      var id := Ids(s, Slot(control, control.invocations[j]))[k];
      id in cases && SameEffect(cases[id], c) && !cases[id].ExpectsAbsence() && cases[id].regression
  }

  /** A challenge repeats a complete batch of its control, or each refusal has a normal counterpart. */
  predicate Challenged(s: Scenario, cases: map<string, Case>, slot: Slot)
    requires Accepted(s.document) && slot.experiment in s.document.experiments && !slot.experiment.kind.Normal?
  {
    var control := ControlOf(s.document, slot.experiment);
    if slot.invocation.batch.Some? then
      exists j | 0 <= j < |control.invocations| ::
        && control.invocations[j].batch == slot.invocation.batch
        && SameEffects(cases, Ids(s, Slot(control, control.invocations[j])), Ids(s, slot))
    else
      forall k | 0 <= k < |Ids(s, slot)| ::
        Ids(s, slot)[k] in cases
            && (cases[Ids(s, slot)[k]].ExpectsAbsence() ==> Counterpart(s, cases, control, cases[Ids(s, slot)[k]]))
  }

  predicate Disjoint(s: Scenario, slots: seq<Slot>) {
    forall m, n | 0 <= m < n < |slots| :: Set(Ids(s, slots[m])) !! Set(Ids(s, slots[n]))
  }

  predicate AllMatch(s: Scenario, cases: map<string, Case>, slots: seq<Slot>) {
    forall n | 0 <= n < |slots| :: SlotMatches(s, cases, slots[n])
  }

  predicate AllChallenged(s: Scenario, cases: map<string, Case>, slots: seq<Slot>)
    requires Accepted(s.document)
  {
    forall n | 0 <= n < |slots| && slots[n].experiment in s.document.experiments && !slots[n].experiment.kind.Normal? ::
      Challenged(s, cases, slots[n])
  }

  ghost predicate CasesAccepted(s: Scenario, cases: map<string, Case>, permissions: map<Permission, Mapped>)
    requires Accepted(s.document)
  {
    var slots := Slots(s.document.experiments);
    && s.fingerprint == s.document && Covered(s)
    && AllMatch(s, cases, slots) && Disjoint(s, slots) && Union(s, slots) == OccurringIds(cases)
    && VariantsFit(s.document, permissions) && AllChallenged(s, cases, slots)
  }

  lemma {:induction false} UnionHas(s: Scenario, slots: seq<Slot>, id: string)
    ensures id in Union(s, slots) <==> exists n | 0 <= n < |slots| :: id in Ids(s, slots[n])
    decreases |slots|
  {
    if slots != [] {
      var init := slots[..|slots| - 1];
      UnionHas(s, init, id);
      if id in Union(s, init) {
        var n :| 0 <= n < |init| && id in Ids(s, init[n]);
        assert id in Ids(s, slots[n]);
      }
      if n :| 0 <= n < |slots| && id in Ids(s, slots[n]) {
        if n < |init| {
          assert id in Ids(s, init[n]);
        }
      }
    }
  }

  lemma DisjointStep(s: Scenario, slots: seq<Slot>, slot: Slot)
    ensures Disjoint(s, slots + [slot]) <==> Disjoint(s, slots) && Union(s, slots) !! Set(Ids(s, slot))
    ensures Union(s, slots + [slot]) == Union(s, slots) + Set(Ids(s, slot))
  {
    var more := slots + [slot];
    assert more[..|slots|] == slots;
    if Disjoint(s, more) {
      assert forall m, n | 0 <= m < n < |slots| :: slots[m] == more[m] && slots[n] == more[n];
      forall id | id in Union(s, slots) ensures id !in Ids(s, slot) {
        UnionHas(s, slots, id);
        var m :| 0 <= m < |slots| && id in Ids(s, slots[m]);
        assert Set(Ids(s, more[m])) !! Set(Ids(s, more[|slots|]));
        assert id in Set(Ids(s, more[m]));
      }
    }
    if Disjoint(s, slots) && Union(s, slots) !! Set(Ids(s, slot)) {
      forall m, n | 0 <= m < n < |more| ensures Set(Ids(s, more[m])) !! Set(Ids(s, more[n])) {
        if n == |slots| {
          forall id | id in Set(Ids(s, more[m])) ensures id !in Set(Ids(s, slot)) {
            assert id in Ids(s, slots[m]);
            UnionHas(s, slots, id);
          }
        } else {
          assert Set(Ids(s, slots[m])) !! Set(Ids(s, slots[n]));
        }
      }
    }
  }

  lemma {:induction false} SlotsFrom(es: seq<Experiment>, n: nat)
    requires n < |Slots(es)|
    ensures Slots(es)[n].experiment in es && Slots(es)[n].invocation in Slots(es)[n].experiment.invocations
    decreases |es|
  {
    var init := es[..|es| - 1];
    if n < |Slots(init)| {
      SlotsFrom(init, n);
    }
  }

  lemma {:induction false} SlotsGrow(es: seq<Experiment>, i: nat)
    requires i < |es|
    ensures Slots(es[..i + 1]) == Slots(es[..i]) + SlotsOf(es[i], |es[i].invocations|)
    ensures |Slots(es[..i + 1])| <= |Slots(es)|
    ensures Slots(es[..i + 1]) == Slots(es)[..|Slots(es[..i + 1])|]
    decreases |es| - i
  {
    assert es[..i + 1][..i] == es[..i];
    if i + 1 < |es| {
      SlotsGrow(es, i + 1);
      var next := Slots(es[..i + 2]);
      assert Slots(es[..i + 1]) == next[..|Slots(es[..i + 1])|];
    } else {
      assert es[..i + 1] == es;
    }
  }

  lemma SlotsPrefix(es: seq<Experiment>, i: nat, j: nat)
    requires i < |es| && j < |es[i].invocations|
    ensures SlotsOf(es[i], j) + [Slot(es[i], es[i].invocations[j])] == SlotsOf(es[i], j + 1)
    ensures Slots(es[..i]) + SlotsOf(es[i], j + 1) <= Slots(es)
  {
    SlotsGrow(es, i);
    var row := SlotsOf(es[i], |es[i].invocations|);
    assert SlotsOf(es[i], j + 1) == row[..j + 1];
    assert Slots(es[..i]) + SlotsOf(es[i], j + 1) == (Slots(es[..i]) + row)[..|Slots(es[..i])| + j + 1];
  }

  lemma PrefixesToo(s: Scenario, cases: map<string, Case>, slots: seq<Slot>, prefix: seq<Slot>)
    requires prefix <= slots && AllMatch(s, cases, slots) && Disjoint(s, slots)
    ensures AllMatch(s, cases, prefix) && Disjoint(s, prefix)
  {
    assert forall n | 0 <= n < |prefix| :: prefix[n] == slots[n];
  }

  /** One invocation against its cases, item by item. */
  method MatchItems(s: Scenario, cases: map<string, Case>, slot: Slot) returns (ok: bool)
    ensures ok <==> SlotMatches(s, cases, slot)
  {
    var ids := Ids(s, slot);
    if |ids| != |slot.invocation.items| || !AllKnown(cases, ids) {
      return false;
    }
    var mixed := Mixed(cases, ids);
    if slot.experiment.kind.Normal? && mixed {
      return false;
    }
    for index := 0 to |ids|
      invariant forall k | 0 <= k < index :: ItemMatches(s, slot, k, cases[ids[k]], mixed)
    {
      if !ItemMatches(s, slot, index, cases[ids[index]], mixed) {
        return false;
      }
    }
    return true;
  }

  /** The slots looked at so far match their cases, and seen is what they take up together. */
  predicate SoFar(s: Scenario, cases: map<string, Case>, done: seq<Slot>, seen: set<string>) {
    AllMatch(s, cases, done) && Disjoint(s, done) && seen == Union(s, done)
  }

  method MatchSlot(s: Scenario, cases: map<string, Case>, ghost done: seq<Slot>, slot: Slot, seen: set<string>)
    returns (ok: bool, more: set<string>)
    requires SoFar(s, cases, done, seen)
    ensures ok ==> SoFar(s, cases, done + [slot], more)
    ensures !ok ==> !(AllMatch(s, cases, done + [slot]) && Disjoint(s, done + [slot]))
  {
    DisjointStep(s, done, slot);
    assert (done + [slot])[|done|] == slot;
    more := seen;
    if seen * Set(Ids(s, slot)) != {} {
      return false, more;
    }
    forall id | id in seen ensures id !in Set(Ids(s, slot)) {
      assert id !in seen * Set(Ids(s, slot));
    }
    more := seen + Set(Ids(s, slot));
    ok := MatchItems(s, cases, slot);
  }

  method MatchExperiment(s: Scenario, cases: map<string, Case>, i: nat, seen: set<string>)
    returns (ok: bool, more: set<string>)
    requires i < |s.document.experiments| && SoFar(s, cases, Slots(s.document.experiments[..i]), seen)
    ensures ok ==> SoFar(s, cases, Slots(s.document.experiments[..i + 1]), more)
    ensures !ok ==> !(AllMatch(s, cases, Slots(s.document.experiments)) && Disjoint(s, Slots(s.document.experiments)))
  {
    var es := s.document.experiments;
    ghost var before := Slots(es[..i]);
    more := seen;
    assert before + SlotsOf(es[i], 0) == before;
    for j := 0 to |es[i].invocations|
      invariant SoFar(s, cases, before + SlotsOf(es[i], j), more)
    {
      ghost var done := before + SlotsOf(es[i], j);
      var slot := Slot(es[i], es[i].invocations[j]);
      SlotsPrefix(es, i, j);
      assert done + [slot] == before + SlotsOf(es[i], j + 1);
      ok, more := MatchSlot(s, cases, done, slot, more);
      if !ok {
        if AllMatch(s, cases, Slots(es)) && Disjoint(s, Slots(es)) {
          PrefixesToo(s, cases, Slots(es), done + [slot]);
        }
        return;
      }
    }
    SlotsGrow(es, i);
    ok := true;
  }

  /** Every invocation against its cases. */
  method MatchSlots(s: Scenario, cases: map<string, Case>) returns (ok: bool, seen: set<string>)
    ensures var slots := Slots(s.document.experiments);
            && (ok <==> AllMatch(s, cases, slots) && Disjoint(s, slots))
            && (ok ==> seen == Union(s, slots))
  {
    var es := s.document.experiments;
    seen := {};
    for i := 0 to |es|
      invariant SoFar(s, cases, Slots(es[..i]), seen)
    {
      ok, seen := MatchExperiment(s, cases, i, seen);
      if !ok {
        return;
      }
    }
    assert es[..|es|] == es;
    ok := true;
  }

  /** Every challenge against its control. */
  method CheckChallenges(s: Scenario, cases: map<string, Case>) returns (ok: bool)
    requires Accepted(s.document)
    ensures ok <==> AllChallenged(s, cases, Slots(s.document.experiments))
  {
    var slots := Slots(s.document.experiments);
    for n := 0 to |slots|
      invariant AllChallenged(s, cases, slots[..n])
    {
      SlotsFrom(s.document.experiments, n);
      if !slots[n].experiment.kind.Normal? && !Challenged(s, cases, slots[n]) {
        return false;
      }
    }
    assert slots[..|slots|] == slots;
    return true;
  }

  // ---------------------------------------------------------------------------------------------
  // The cases of the actions

  /** A case as it stands in an action, and whether its conditions name a revoked grant. */
  datatype Entry = Entry(id: string, item: Case, revokes: bool)

  datatype ActionCases = ActionCases(action: string, entries: seq<Entry>)

  /** The entries by their id, added to those of m; a later entry replaces an earlier one. */
  function WithCases(m: map<string, Case>, entries: seq<Entry>): map<string, Case> {
    if entries == [] then m
    else WithCases(m, entries[..|entries| - 1])[entries[|entries| - 1].id := entries[|entries| - 1].item]
  }

  function CasesOf(actions: seq<ActionCases>): map<string, Case> {
    if actions == [] then map[] else WithCases(CasesOf(actions[..|actions| - 1]), actions[|actions| - 1].entries)
  }

  function MappedTo(action: string, e: Entry): Mapped {
    Mapped(action, e.revokes)
  }

  function WithPermissions(m: map<Permission, Mapped>, action: string, entries: seq<Entry>): map<Permission, Mapped> {
    if entries == [] then m
    else
      var last := entries[|entries| - 1];
      WithPermissions(m, action, entries[..|entries| - 1])[last.item.permission := MappedTo(action, last)]
  }

  function PermissionsOf(actions: seq<ActionCases>): map<Permission, Mapped> {
    if actions == [] then map[]
    else
      var last := actions[|actions| - 1];
      WithPermissions(PermissionsOf(actions[..|actions| - 1]), last.action, last.entries)
  }

  method Collect(actions: seq<ActionCases>) returns (cases: map<string, Case>, permissions: map<Permission, Mapped>)
    ensures cases == CasesOf(actions) && permissions == PermissionsOf(actions)
  {
    cases, permissions := map[], map[];
    for i := 0 to |actions|
      invariant cases == CasesOf(actions[..i]) && permissions == PermissionsOf(actions[..i])
    {
      var entries := actions[i].entries;
      assert actions[..i + 1][..i] == actions[..i];
      for j := 0 to |entries|
        invariant cases == WithCases(CasesOf(actions[..i]), entries[..j])
        invariant permissions == WithPermissions(PermissionsOf(actions[..i]), actions[i].action, entries[..j])
      {
        assert entries[..j + 1][..j] == entries[..j];
        cases := cases[entries[j].id := entries[j].item];
        permissions := permissions[entries[j].item.permission := Mapped(actions[i].action, entries[j].revokes)];
      }
      assert entries[..|entries|] == entries;
    }
    assert actions[..|actions|] == actions;
  }

  /** What the cases of the actions say of the scenario. */
  ghost predicate ScenarioAccepted(s: Scenario, actions: seq<ActionCases>)
    requires Accepted(s.document)
  {
    CasesAccepted(s, CasesOf(actions), PermissionsOf(actions))
  }

  method ValidateScenarioCases(s: Scenario, actions: seq<ActionCases>) returns (ok: bool)
    requires Accepted(s.document)
    ensures ok <==> ScenarioAccepted(s, actions)
  {
    var cases, permissions := Collect(actions);
    if s.fingerprint != s.document || !Covered(s) {
      return false;
    }
    var seen;
    ok, seen := MatchSlots(s, cases);
    if !ok || seen != OccurringIds(cases) {
      return false;
    }
    ok := ValidateExperimentVariants(s.document, permissions);
    if ok {
      ok := CheckChallenges(s, cases);
    }
  }

  // ---------------------------------------------------------------------------------------------
  // The order of the actions and their cases

  ghost predicate Lists(actions: seq<ActionCases>, action: string, e: Entry) {
    exists a | a in actions :: a.action == action && e in a.entries
  }

  lemma {:induction false} CaseIsListed(m: map<string, Case>, entries: seq<Entry>, id: string)
    requires id in WithCases(m, entries)
    ensures (id in m && WithCases(m, entries)[id] == m[id])
            || exists e | e in entries :: e.id == id && e.item == WithCases(m, entries)[id]
    decreases |entries|
  {
    if entries != [] && entries[|entries| - 1].id != id {
      CaseIsListed(m, entries[..|entries| - 1], id);
    }
  }

  lemma {:induction false} ListedIsCase(m: map<string, Case>, entries: seq<Entry>, id: string)
    requires id in m || exists e | e in entries :: e.id == id
    ensures id in WithCases(m, entries)
    decreases |entries|
  {
    if entries != [] && entries[|entries| - 1].id != id {
      ListedIsCase(m, entries[..|entries| - 1], id);
    }
  }

  lemma {:induction false} PermissionIsListed(m: map<Permission, Mapped>, action: string, entries: seq<Entry>,
                                              p: Permission)
    requires p in WithPermissions(m, action, entries)
    ensures || (p in m && WithPermissions(m, action, entries)[p] == m[p])
            || exists e | e in entries ::
                 e.item.permission == p && MappedTo(action, e) == WithPermissions(m, action, entries)[p]
    decreases |entries|
  {
    if entries != [] && entries[|entries| - 1].item.permission != p {
      PermissionIsListed(m, action, entries[..|entries| - 1], p);
    }
  }

  lemma {:induction false} ListedIsPermission(m: map<Permission, Mapped>, action: string, entries: seq<Entry>,
                                              p: Permission)
    requires p in m || exists e | e in entries :: e.item.permission == p
    ensures p in WithPermissions(m, action, entries)
    decreases |entries|
  {
    if entries != [] && entries[|entries| - 1].item.permission != p {
      ListedIsPermission(m, action, entries[..|entries| - 1], p);
    }
  }

  lemma {:induction false} CaseHasEntry(actions: seq<ActionCases>, id: string) returns (action: string, e: Entry)
    requires id in CasesOf(actions)
    ensures Lists(actions, action, e) && e.id == id && e.item == CasesOf(actions)[id]
    decreases |actions|
  {
    var init, last := actions[..|actions| - 1], actions[|actions| - 1];
    CaseIsListed(CasesOf(init), last.entries, id);
    if f :| f in last.entries && f.id == id && f.item == CasesOf(actions)[id] {
      action, e := last.action, f;
    } else {
      action, e := CaseHasEntry(init, id);
    }
  }

  lemma {:induction false} EntryIsCase(actions: seq<ActionCases>, action: string, e: Entry)
    requires Lists(actions, action, e)
    ensures e.id in CasesOf(actions)
    decreases |actions|
  {
    var init, last := actions[..|actions| - 1], actions[|actions| - 1];
    if !(last.action == action && e in last.entries) {
      assert Lists(init, action, e);
      EntryIsCase(init, action, e);
    }
    ListedIsCase(CasesOf(init), last.entries, e.id);
  }

  lemma {:induction false} PermissionHasEntry(actions: seq<ActionCases>, p: Permission)
      returns (action: string, e: Entry)
    requires p in PermissionsOf(actions)
    ensures Lists(actions, action, e) && e.item.permission == p && MappedTo(action, e) == PermissionsOf(actions)[p]
    decreases |actions|
  {
    var init, last := actions[..|actions| - 1], actions[|actions| - 1];
    PermissionIsListed(PermissionsOf(init), last.action, last.entries, p);
    if f :| f in last.entries && f.item.permission == p && MappedTo(last.action, f) == PermissionsOf(actions)[p] {
      action, e := last.action, f;
    } else {
      action, e := PermissionHasEntry(init, p);
    }
  }

  lemma {:induction false} EntryIsPermission(actions: seq<ActionCases>, action: string, e: Entry)
    requires Lists(actions, action, e)
    ensures e.item.permission in PermissionsOf(actions)
    decreases |actions|
  {
    var init, last := actions[..|actions| - 1], actions[|actions| - 1];
    if !(last.action == action && e in last.entries) {
      assert Lists(init, action, e);
      EntryIsPermission(init, action, e);
    }
    ListedIsPermission(PermissionsOf(init), last.action, last.entries, e.item.permission);
  }

  /** No id stands for two cases, and no permission for two actions or two sets of conditions. */
  ghost predicate Unambiguous(actions: seq<ActionCases>) {
    forall a, e, b, f | Lists(actions, a, e) && Lists(actions, b, f) ::
      && (e.id == f.id ==> e.item == f.item)
      && (e.item.permission == f.item.permission ==> MappedTo(a, e) == MappedTo(b, f))
  }

  /** The later of two entries counts; but when the entries are not ambiguous, neither the order of the actions nor
      that of their cases matters to the check. */
  lemma OrderIsIrrelevant(s: Scenario, actions: seq<ActionCases>, others: seq<ActionCases>)
    requires Accepted(s.document) && Unambiguous(actions)
    requires forall a, e :: Lists(actions, a, e) <==> Lists(others, a, e)
    ensures ScenarioAccepted(s, actions) <==> ScenarioAccepted(s, others)
  {
    SameCases(actions, others);
    SamePermissions(actions, others);
  }

  lemma SameCases(actions: seq<ActionCases>, others: seq<ActionCases>)
    requires Unambiguous(actions) && forall a, e :: Lists(actions, a, e) <==> Lists(others, a, e)
    ensures CasesOf(actions) == CasesOf(others)
  {
    forall id | id in CasesOf(actions)
      ensures id in CasesOf(others) && CasesOf(others)[id] == CasesOf(actions)[id]
    {
      var a, e := CaseHasEntry(actions, id);
      EntryIsCase(others, a, e);
      var b, f := CaseHasEntry(others, id);
      assert Lists(actions, b, f);
    }
    forall id | id in CasesOf(others) ensures id in CasesOf(actions) {
      var b, f := CaseHasEntry(others, id);
      EntryIsCase(actions, b, f);
    }
  }

  lemma SamePermissions(actions: seq<ActionCases>, others: seq<ActionCases>)
    requires Unambiguous(actions) && forall a, e :: Lists(actions, a, e) <==> Lists(others, a, e)
    ensures PermissionsOf(actions) == PermissionsOf(others)
  {
    forall p | p in PermissionsOf(actions)
      ensures p in PermissionsOf(others) && PermissionsOf(others)[p] == PermissionsOf(actions)[p]
    {
      var a, e := PermissionHasEntry(actions, p);
      EntryIsPermission(others, a, e);
      var b, f := PermissionHasEntry(others, p);
      assert Lists(actions, b, f);
    }
    forall p | p in PermissionsOf(others) ensures p in PermissionsOf(actions) {
      var b, f := PermissionHasEntry(others, p);
      EntryIsPermission(actions, b, f);
    }
  }

  // ---------------------------------------------------------------------------------------------
  // Cases and positions

  /** A position names an item of an invocation of the document. */
  predicate Position(s: Scenario, n: nat, k: nat) {
    var slots := Slots(s.document.experiments);
    n < |slots| && k < |slots[n].invocation.items|
  }

  function CaseAt(s: Scenario, n: nat, k: nat): string
    requires Position(s, n, k)
    requires |Ids(s, Slots(s.document.experiments)[n])| == |Slots(s.document.experiments)[n].invocation.items|
  {
    Ids(s, Slots(s.document.experiments)[n])[k]
  }

  /** In an accepted scenario each position has a case of its own, which names that position. */
  lemma PositionHasCase(s: Scenario, cases: map<string, Case>, permissions: map<Permission, Mapped>, n: nat, k: nat)
    requires Accepted(s.document) && CasesAccepted(s, cases, permissions) && Position(s, n, k)
    ensures var slot := Slots(s.document.experiments)[n];
            && |Ids(s, slot)| == |slot.invocation.items|
            && CaseAt(s, n, k) in cases
            && cases[CaseAt(s, n, k)].occurrence == Some(OccurrenceAt(s, slot, k))
  {
    assert SlotMatches(s, cases, Slots(s.document.experiments)[n]);
  }

  lemma PositionsHaveDifferentCases(s: Scenario, cases: map<string, Case>, permissions: map<Permission, Mapped>,
                                    n: nat, k: nat, m: nat, l: nat)
    requires Accepted(s.document) && CasesAccepted(s, cases, permissions) && Position(s, n, k) && Position(s, m, l)
    requires (n, k) != (m, l)
    ensures |Ids(s, Slots(s.document.experiments)[n])| == |Slots(s.document.experiments)[n].invocation.items|
    ensures |Ids(s, Slots(s.document.experiments)[m])| == |Slots(s.document.experiments)[m].invocation.items|
    ensures CaseAt(s, n, k) != CaseAt(s, m, l)
  {
    PositionHasCase(s, cases, permissions, n, k);
    PositionHasCase(s, cases, permissions, m, l);
    DifferentOccurrences(s, Slots(s.document.experiments), n, k, m, l, CaseAt(s, n, k));
  }

  /** Two positions of one invocation differ in their index, and two invocations share no case. */
  lemma DifferentOccurrences(s: Scenario, slots: seq<Slot>, n: nat, k: nat, m: nat, l: nat, id: string)
    requires Disjoint(s, slots) && n < |slots| && m < |slots| && (n, k) != (m, l) && id in Ids(s, slots[n])
    ensures id !in Ids(s, slots[m]) || OccurrenceAt(s, slots[n], k) != OccurrenceAt(s, slots[m], l)
  {
    if n != m {
      SlotsShareNothing(s, slots, n, m, id);
    }
  }

  lemma SlotsShareNothing(s: Scenario, slots: seq<Slot>, n: nat, m: nat, id: string)
    requires Disjoint(s, slots) && n < |slots| && m < |slots| && n != m && id in Ids(s, slots[n])
    ensures id !in Ids(s, slots[m])
  {
    assert Set(Ids(s, slots[if n < m then n else m])) !! Set(Ids(s, slots[if n < m then m else n]));
    assert id in Set(Ids(s, slots[n]));
  }

  lemma OccurringSlot(s: Scenario, cases: map<string, Case>, permissions: map<Permission, Mapped>,
      id: string) returns (n: nat)
    requires Accepted(s.document) && CasesAccepted(s, cases, permissions) && id in cases && cases[id].occurrence.Some?
    ensures var slots := Slots(s.document.experiments);
            n < |slots| && id in Ids(s, slots[n]) && |Ids(s, slots[n])| == |slots[n].invocation.items|
  {
    var slots := Slots(s.document.experiments);
    assert id in OccurringIds(cases);
    n := SlotOf(s, slots, id);
    assert SlotMatches(s, cases, slots[n]);
  }

  lemma SlotOf(s: Scenario, slots: seq<Slot>, id: string) returns (n: nat)
    requires id in Union(s, slots)
    ensures n < |slots| && id in Ids(s, slots[n])
  {
    UnionHas(s, slots, id);
    n :| 0 <= n < |slots| && id in Ids(s, slots[n]);
  }

  /** And every case that names an occurrence stands at a position. */
  lemma OccurringCaseHasPosition(s: Scenario, cases: map<string, Case>, permissions: map<Permission, Mapped>,
      id: string)
    returns (n: nat, k: nat)
    requires Accepted(s.document) && CasesAccepted(s, cases, permissions) && id in cases && cases[id].occurrence.Some?
    ensures Position(s, n, k)
    ensures |Ids(s, Slots(s.document.experiments)[n])| == |Slots(s.document.experiments)[n].invocation.items|
    ensures CaseAt(s, n, k) == id
  {
    n := OccurringSlot(s, cases, permissions, id);
    var ids := Ids(s, Slots(s.document.experiments)[n]);
    k :| 0 <= k < |ids| && ids[k] == id;
  }
}
