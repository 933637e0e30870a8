/** Acceptance of a workflow binding: its step graph and the producers of its value slots. */
module Workflow {
  import opened Collections
  import opened Order
  import opened Dependencies

  datatype Slot = Slot(producer: Option<Node>, secret: bool)

  datatype Step = Step(id: Node, isTarget: bool, isCleanup: bool, readOnly: bool, identity: string,
                       dependsOn: seq<Node>, slots: seq<Slot>)

  datatype Binding = Binding(steps: seq<Step>, target: Node, resourceSlots: seq<string>, projections: seq<string>,
                             resetNotRequired: bool, fingerprint: Option<string>)

  /** The digest of a binding's content. */
  type Digest = Binding -> string

  function Unsigned(b: Binding): Binding {
    b.(fingerprint := None)
  }

  function Frozen(digest: Digest, b: Binding): Binding {
    b.(fingerprint := Some(digest(Unsigned(b))))
  }

  function Ids(steps: seq<Step>): (ids: seq<Node>)
    ensures |ids| == |steps| && forall i | 0 <= i < |steps| :: ids[i] == steps[i].id
  {
    seq(|steps|, i requires 0 <= i < |steps| => steps[i].id)
  }

  /** The step graph, with the declared dependencies of each step. */
  function StepGraph(steps: seq<Step>): (g: Graph)
    requires Distinct(Ids(steps))
    ensures g.Keys == Elements(Ids(steps))
    ensures forall i | 0 <= i < |steps| :: steps[i].id in g && g[steps[i].id] == Elements(steps[i].dependsOn)
  {
    if steps == [] then map[]
    else
      assert Ids(steps[1..]) == Ids(steps)[1..];
      assert forall i | 1 <= i < |steps| :: steps[i] == steps[1..][i - 1];
      StepGraph(steps[1..])[steps[0].id := Elements(steps[0].dependsOn)]
  }

  ghost predicate TargetAccepted(b: Binding) {
    exists i ::
      && 0 <= i < |b.steps| && b.steps[i].isTarget && b.steps[i].id == b.target
      && forall j | 0 <= j < |b.steps| && b.steps[j].isTarget :: j == i
  }

  ghost predicate ResetAccepted(b: Binding) {
    b.resetNotRequired ==> forall s | s in b.steps :: !s.isCleanup && s.readOnly
  }

  ghost predicate ReferencesAccepted(b: Binding) {
    forall s, d | s in b.steps && d in s.dependsOn :: d in Ids(b.steps) && d != s.id
  }

  ghost predicate GraphAccepted(b: Binding) {
    Distinct(Ids(b.steps)) && ReferencesAccepted(b) && !Cyclic(StepGraph(b.steps))
  }

  /** The slot's producer is a step the consumer depends on, under the same identity if the slot is secret. */
  ghost predicate SlotAccepted(b: Binding, consumer: Step, slot: Slot)
    requires Distinct(Ids(b.steps))
  {
    slot.producer.Some? ==>
      exists producer ::
        && producer in b.steps && producer.id == slot.producer.value
        && DependsOn(StepGraph(b.steps), consumer.id, producer.id)
        && (slot.secret ==> producer.identity == consumer.identity)
  }

  predicate FingerprintAccepted(digest: Digest, b: Binding) {
    b.fingerprint.Some? ==> b.fingerprint.value == digest(Unsigned(b))
  }

  ghost predicate Accepted(digest: Digest, b: Binding) {
    && TargetAccepted(b)
    && Distinct(b.resourceSlots) && Distinct(b.projections)
    && ResetAccepted(b)
    && GraphAccepted(b)
    && (forall s | s in b.steps :: StepSlotsAccepted(b, s))
    && FingerprintAccepted(digest, b)
  }

  method AllDistinct(q: seq<string>) returns (ok: bool)
    ensures ok <==> Distinct(q)
  {
    var seen := {};
    for i := 0 to |q|
      invariant forall x :: x in seen <==> x in q[..i]
      invariant Distinct(q[..i])
    {
      if q[i] in seen {
        assert exists k :: 0 <= k < i && q[k] == q[i];
        return false;
      }
      seen := seen + {q[i]};
      assert q[..i + 1] == q[..i] + [q[i]];
    }
    assert q[..|q|] == q;
    return true;
  }

  method FindStep(steps: seq<Step>, id: Node) returns (step: Step)
    requires Distinct(Ids(steps)) && id in Ids(steps)
    ensures step in steps && step.id == id
  {
    var i := 0;
    while steps[i].id != id
      invariant 0 <= i < |steps| && id in Ids(steps)[i..]
      decreases |steps| - i
    {
      assert Ids(steps)[i..] == [steps[i].id] + Ids(steps)[i + 1..];
      i := i + 1;
    }
    step := steps[i];
  }

  /** Exactly one target step, and it is the declared one. */
  method CheckTarget(b: Binding) returns (ok: bool)
    requires Distinct(Ids(b.steps))
    ensures ok <==> TargetAccepted(b)
  {
    var targets: seq<Step> := [];
    ghost var first, second := 0, 0;
    for i := 0 to |b.steps|
      invariant targets == [] ==> forall k | 0 <= k < i :: !b.steps[k].isTarget
      invariant |targets| >= 1 ==> 0 <= first < i && b.steps[first].isTarget && targets[0] == b.steps[first]
      invariant |targets| == 1 ==> forall k | 0 <= k < i && b.steps[k].isTarget :: k == first
      invariant |targets| >= 2 ==> 0 <= second < i && b.steps[second].isTarget && first != second
    {
      if b.steps[i].isTarget {
        if targets == [] {
          first := i;
        } else {
          second := i;
        }
        targets := targets + [b.steps[i]];
      }
    }
    ok := |targets| == 1 && targets[0].id == b.target;
  }

  ghost predicate StepSlotsAccepted(b: Binding, step: Step)
    requires Distinct(Ids(b.steps))
  {
    forall slot | slot in step.slots :: SlotAccepted(b, step, slot)
  }

  method CheckSlots(b: Binding, graph: Graph) returns (ok: bool)
    requires Distinct(Ids(b.steps)) && ReferencesAccepted(b) && graph == StepGraph(b.steps)
    ensures ok <==> forall s | s in b.steps :: StepSlotsAccepted(b, s)
  {
    hide StepSlotsAccepted, ReferencesAccepted, StepGraph, Distinct;
    for i := 0 to |b.steps|
      invariant forall k | 0 <= k < i :: StepSlotsAccepted(b, b.steps[k])
    {
      ok := CheckStepSlots(b, graph, b.steps[i]);
      if !ok {
        return;
      }
    }
    ok := true;
  }

  ghost predicate FirstSlotsAccepted(b: Binding, step: Step, n: nat)
    requires Distinct(Ids(b.steps)) && n <= |step.slots|
  {
    n == 0 || (FirstSlotsAccepted(b, step, n - 1) && SlotAccepted(b, step, step.slots[n - 1]))
  }

  lemma {:induction false} FirstSlots(b: Binding, step: Step, n: nat)
    requires Distinct(Ids(b.steps)) && n <= |step.slots|
    ensures FirstSlotsAccepted(b, step, n) <==> forall k | 0 <= k < n :: SlotAccepted(b, step, step.slots[k])
  {
    if n > 0 {
      FirstSlots(b, step, n - 1);
    }
  }

  lemma AllSlots(b: Binding, step: Step)
    requires Distinct(Ids(b.steps))
    ensures FirstSlotsAccepted(b, step, |step.slots|) <==> StepSlotsAccepted(b, step)
  {
    FirstSlots(b, step, |step.slots|);
    forall k | 0 <= k < |step.slots| && StepSlotsAccepted(b, step) ensures SlotAccepted(b, step, step.slots[k]) {
      assert step.slots[k] in step.slots;
    }
  }

  method CheckStepSlots(b: Binding, graph: Graph, step: Step) returns (ok: bool)
    requires Distinct(Ids(b.steps)) && ReferencesAccepted(b) && graph == StepGraph(b.steps) && step in b.steps
    ensures ok <==> StepSlotsAccepted(b, step)
  {
    AllSlots(b, step);
    ok := true;
    for j := 0 to |step.slots|
      invariant ok <==> FirstSlotsAccepted(b, step, j)
    {
      var accepted := CheckSlot(b, graph, step, step.slots[j]);
      ok := ok && accepted;
    }
  }

  method CheckSlot(b: Binding, graph: Graph, step: Step, slot: Slot) returns (ok: bool)
    requires Distinct(Ids(b.steps)) && ReferencesAccepted(b) && graph == StepGraph(b.steps) && step in b.steps
    ensures ok <==> SlotAccepted(b, step, slot)
  {
    if slot.producer.None? {
      return true;
    }
    assert step.id in graph && forall k, m | k in graph && m in graph[k] :: m in graph by {
      StepGraphClosed(b);
    }
    var id := slot.producer.value;
    if id !in graph {
      return false;
    }
    var before := TransitiveDependencies(graph, step.id);
    if id !in before {
      return false;
    }
    if slot.secret {
      var producer := FindStep(b.steps, id);
      ok := producer.identity == step.identity;
      SlotVerdict(b, step, slot, producer, ok);
    } else {
      StepOf(b, id);
      ok := true;
    }
  }

  lemma StepOf(b: Binding, id: Node)
    requires Distinct(Ids(b.steps)) && id in StepGraph(b.steps)
    ensures exists s :: s in b.steps && s.id == id
  {
    var k :| 0 <= k < |b.steps| && Ids(b.steps)[k] == id;
    assert b.steps[k] in b.steps && b.steps[k].id == id;
  }

  lemma SlotVerdict(b: Binding, step: Step, slot: Slot, producer: Step, ok: bool)
    requires Distinct(Ids(b.steps)) && producer in b.steps && slot.producer == Some(producer.id) && slot.secret
    requires DependsOn(StepGraph(b.steps), step.id, producer.id) && (ok <==> producer.identity == step.identity)
    ensures ok <==> SlotAccepted(b, step, slot)
  {
    SameIdSameStep(b);
  }

  lemma SameIdSameStep(b: Binding)
    requires Distinct(Ids(b.steps))
    ensures forall s, t | s in b.steps && t in b.steps && s.id == t.id :: s == t
  {
    forall s, t | s in b.steps && t in b.steps && s.id == t.id ensures s == t {
      var i :| 0 <= i < |b.steps| && b.steps[i] == s;
      var j :| 0 <= j < |b.steps| && b.steps[j] == t;
      assert Ids(b.steps)[i] == Ids(b.steps)[j];
    }
  }

  lemma StepGraphClosed(b: Binding)
    requires Distinct(Ids(b.steps)) && ReferencesAccepted(b)
    ensures forall s | s in b.steps :: s.id in StepGraph(b.steps)
    ensures forall k, m | k in StepGraph(b.steps) && m in StepGraph(b.steps)[k] :: m in StepGraph(b.steps)
  {
    var g := StepGraph(b.steps);
    forall k, m | k in g && m in g[k] ensures m in g {
      assert k in Ids(b.steps);
      var i :| 0 <= i < |b.steps| && Ids(b.steps)[i] == k;
      assert b.steps[i] in b.steps && m in b.steps[i].dependsOn;
    }
    forall s | s in b.steps ensures s.id in g {
      var i :| 0 <= i < |b.steps| && b.steps[i] == s;
    }
  }

  /** Declared references and cycles; only the step identifiers have been checked before. */
  method CheckGraph(b: Binding) returns (ok: bool, ghost order: seq<Node>)
    requires Distinct(Ids(b.steps))
    ensures ok <==> GraphAccepted(b)
    ensures ok ==> Respects(StepGraph(b.steps), order) && forall s | s in b.steps :: s.id in order
  {
    order := [];
    var graph := StepGraph(b.steps);
    ok := ReferencesInside(b, graph);
    if ok {
      ok, order := RejectCycles(graph);
      if ok {
        StepGraphClosed(b);
      }
    }
  }

  method ReferencesInside(b: Binding, graph: Graph) returns (ok: bool)
    requires Distinct(Ids(b.steps)) && graph == StepGraph(b.steps)
    ensures ok <==> ReferencesAccepted(b)
  {
    ok := !exists s, d | s in b.steps && d in s.dependsOn :: d !in graph || d == s.id;
    assert forall d :: d in graph <==> d in Ids(b.steps);
  }

  /** The whole validation, in the order the program makes it; an accepted binding carries its fingerprint. */
  method Validate(digest: Digest, b: Binding) returns (frozen: Option<Binding>, ghost order: seq<Node>)
    ensures frozen == if Accepted(digest, b) then Some(Frozen(digest, b)) else None
    ensures frozen.Some? ==> Respects(StepGraph(b.steps), order) && forall s | s in b.steps :: s.id in order
  {
    frozen := None;
    var ok;
    ok, order := ValidateContent(b);
    if ok && FingerprintAccepted(digest, b) {
      frozen := Some(b.(fingerprint := Some(digest(Unsigned(b)))));
    }
  }

  method ValidateContent(b: Binding) returns (ok: bool, ghost order: seq<Node>)
    ensures ok <==>
              && TargetAccepted(b) && Distinct(b.resourceSlots) && Distinct(b.projections) && ResetAccepted(b)
              && GraphAccepted(b) && (forall s | s in b.steps :: StepSlotsAccepted(b, s))
    ensures ok ==> Respects(StepGraph(b.steps), order) && forall s | s in b.steps :: s.id in order
  {
    order := [];
    ok := AllDistinct(Ids(b.steps));
    if ok {
      ok := CheckTarget(b);
    }
    if ok {
      ok := AllDistinct(b.resourceSlots);
    }
    if ok {
      ok := AllDistinct(b.projections);
    }
    if ok && b.resetNotRequired {
      ok := forall s | s in b.steps :: !s.isCleanup && s.readOnly;
    }
    if ok {
      ok, order := CheckGraph(b);
      if ok {
        ok := CheckSlots(b, StepGraph(b.steps));
      }
    }
  }

  /** The rules but for the fingerprint do not look at it. */
  lemma FreezingKeeps(b: Binding, fingerprint: Option<string>)
    ensures var c := b.(fingerprint := fingerprint);
            && (TargetAccepted(c) <==> TargetAccepted(b)) && (ResetAccepted(c) <==> ResetAccepted(b))
            && (GraphAccepted(c) <==> GraphAccepted(b))
            && (GraphAccepted(b) && (forall s | s in b.steps :: StepSlotsAccepted(b, s)) ==>
                  forall s | s in c.steps :: StepSlotsAccepted(c, s))
  {
    var c := b.(fingerprint := fingerprint);
    if GraphAccepted(b) && forall s | s in b.steps :: StepSlotsAccepted(b, s) {
      forall s | s in c.steps ensures StepSlotsAccepted(c, s) {
        forall slot | slot in s.slots ensures SlotAccepted(c, s, slot) {
          assert StepSlotsAccepted(b, s) && SlotAccepted(b, s, slot);
        }
      }
    }
  }

  /** Freezing is final: a frozen binding is accepted again as it is; and with a digest that tells contents apart,
      no accepted binding with the same fingerprint differs from it in anything. */
  lemma FrozenIsFixed(digest: Digest, b: Binding, c: Binding)
    requires Accepted(digest, b)
    requires forall x, y | digest(x) == digest(y) :: x == y
    ensures Accepted(digest, Frozen(digest, b)) && Frozen(digest, Frozen(digest, b)) == Frozen(digest, b)
    ensures Accepted(digest, c) && c.fingerprint == Frozen(digest, b).fingerprint ==> c == Frozen(digest, b)
  {
    FreezingKeeps(b, Frozen(digest, b).fingerprint);
    assert Unsigned(Frozen(digest, b)) == Unsigned(b);
    if Accepted(digest, c) && c.fingerprint == Frozen(digest, b).fingerprint {
      assert digest(Unsigned(c)) == digest(Unsigned(b));
    }
  }

  /** In an accepted workflow every slot producer is another step, and every order of the steps that
      respects the declared dependencies runs it before the consumer. */
  lemma ProducerPrecedesConsumer(digest: Digest, b: Binding, consumer: Step, slot: Slot, order: seq<Node>)
    requires Accepted(digest, b) && consumer in b.steps && slot in consumer.slots && slot.producer.Some?
    requires Respects(StepGraph(b.steps), order) && forall s | s in b.steps :: s.id in order
    ensures slot.producer.value != consumer.id
    ensures exists j, i :: 0 <= j < i < |order| && order[j] == slot.producer.value && order[i] == consumer.id
  {
    assert SlotAccepted(b, consumer, slot);
    DependencyPrecedes(StepGraph(b.steps), order, consumer.id, slot.producer.value);
  }
}
