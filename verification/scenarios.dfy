/** Business scenarios: frozen experiments over permission cases, and the checks an independent reader repeats.
 */
module Scenarios {
  import opened Collections
  import opened Subsequences

  datatype Permission = Permission(intent: string, revision: nat, digest: string)

  datatype Item = Item(id: string, permission: Permission, subject: Option<string>, resource: string,
                       resourceFrom: Option<string>)

  datatype Strategy = Atomic | PerItem

  datatype Batch = Batch(strategy: Strategy, paths: string)

  datatype Invocation = Invocation(id: string, items: seq<Item>, batch: Option<Batch>)

  datatype Kind = Normal | Omit | Reorder | Repeat | ChangeSubject | Revoke

  datatype Experiment = Experiment(id: string, kind: Kind, control: Option<string>, invocations: seq<Invocation>)

  datatype Document = Document(experiments: seq<Experiment>)

  datatype Frozen = Frozen(experiment: string, invocation: string, cases: seq<string>)

  /** The fingerprint identifies the document, as an injective digest does. */
  datatype Scenario = Scenario(document: Document, fingerprint: Document, invocations: seq<Frozen>)

  /** The digest of an occurrence is injective in these four. */
  datatype Occurrence = Occurrence(fingerprint: Document, experiment: string, invocation: string, index: nat)

  datatype Case = Case(permission: Permission, denies: bool, occurrence: Option<Occurrence>, subject: Option<string>,
                       resource: string, invocationKind: Option<Strategy>, effectAbsent: Option<bool>,
                       flow: string, effects: string, regression: bool)
  {
    predicate ExpectsAbsence() {
      if effectAbsent.Some? then effectAbsent.value else denies
    }
  }

  /** What the executed cases say of a permission: its action, and whether its conditions name a revoked grant. */
  datatype Mapped = Mapped(action: string, revokes: bool)

  // ---------------------------------------------------------------------------------------------
  // Variants

  datatype Member = Member(action: string, subject: Option<string>, resource: string, resourceFrom: Option<string>)

  datatype Signature = Signature(members: seq<Member>, batch: Option<Batch>)

  predicate Known(permissions: map<Permission, Mapped>, e: Experiment) {
    forall i, j | 0 <= i < |e.invocations| && 0 <= j < |e.invocations[i].items| ::
      e.invocations[i].items[j].permission in permissions
  }

  function Steps(permissions: map<Permission, Mapped>, e: Experiment, subjects: bool): (r: seq<Signature>)
    requires Known(permissions, e)
    ensures |r| == |e.invocations|
  {
    seq(|e.invocations|, i requires 0 <= i < |e.invocations| =>
      var v := e.invocations[i];
      Signature(seq(|v.items|, j requires 0 <= j < |v.items| =>
                  Member(permissions[v.items[j].permission].action, if subjects then v.items[j].subject else None,
                         v.items[j].resource, v.items[j].resourceFrom)), v.batch))
  }

  predicate Within(variant: seq<Signature>, normal: seq<Signature>) {
    forall i | 0 <= i < |variant| :: variant[i] in normal
  }

  predicate RevokesSomething(permissions: map<Permission, Mapped>, e: Experiment)
    requires Known(permissions, e)
  {
    exists i, j | 0 <= i < |e.invocations| && 0 <= j < |e.invocations[i].items| ::
      permissions[e.invocations[i].items[j].permission].revokes
  }

  /** The experiment differs from its control in the way its kind says. */
  ghost predicate Fits(permissions: map<Permission, Mapped>, control: Experiment, e: Experiment)
    requires Known(permissions, control) && Known(permissions, e)
  {
    var normal, variant := Steps(permissions, control, true), Steps(permissions, e, true);
    match e.kind
    case Normal => true
    case Omit => |variant| < |normal| && Embeds(variant, normal)
    case Reorder => normal != variant && multiset(normal) == multiset(variant)
    case Repeat => |variant| > |normal| && Embeds(normal, variant) && Within(variant, normal)
    case ChangeSubject => normal != variant && Steps(permissions, control, false) == Steps(permissions, e, false)
    case Revoke => RevokesSomething(permissions, e)
  }

  method VariantFits(permissions: map<Permission, Mapped>, control: Experiment, e: Experiment) returns (ok: bool)
    requires Known(permissions, control) && Known(permissions, e)
    ensures ok <==> Fits(permissions, control, e)
  {
    var normal, variant := Steps(permissions, control, true), Steps(permissions, e, true);
    match e.kind
    case Normal => ok := true;
    case Omit =>
      ok := false;
      if |variant| < |normal| { ok := Subsequence(variant, normal); }
    case Reorder => ok := normal != variant && multiset(normal) == multiset(variant);
    case Repeat =>
      ok := false;
      if |variant| > |normal| { ok := Subsequence(normal, variant); }
      ok := ok && Within(variant, normal);
    case ChangeSubject => ok := normal != variant && Steps(permissions, control, false) == Steps(permissions, e, false);
    case Revoke => ok := RevokesSomething(permissions, e);
  }

  /** The steps of the control and of the variant, counted: omission drops some, reordering keeps all, repetition
      adds some, and a change of subject keeps their number. */
  lemma VariantsCounted(permissions: map<Permission, Mapped>, control: Experiment, e: Experiment)
    requires Known(permissions, control) && Known(permissions, e) && Fits(permissions, control, e)
    ensures var normal, variant := multiset(Steps(permissions, control, true)), multiset(Steps(permissions, e, true));
            && (e.kind.Omit? ==> variant < normal)
            && (e.kind.Reorder? ==> variant == normal)
            && (e.kind.Repeat? ==> normal < variant)
            && (e.kind.ChangeSubject? ==> |variant| == |normal|)
  {
    var normal, variant := Steps(permissions, control, true), Steps(permissions, e, true);
    if e.kind.Omit? { OmissionDropsSteps(normal, variant); }
    if e.kind.Repeat? { RepetitionAddsSteps(normal, variant); }
    if e.kind.ChangeSubject? { assert |normal| == |Steps(permissions, control, false)|; }
  }

  /** No experiment fits its control as two different kinds of omission, reordering and repetition, nor as a
      change of subject together with an omission or a repetition. */
  lemma VariantKindsExclude(permissions: map<Permission, Mapped>, control: Experiment, e: Experiment, kind: Kind)
    requires Known(permissions, control) && Known(permissions, e) && Fits(permissions, control, e)
    requires kind != e.kind && (e.kind.Omit? || e.kind.Repeat?)
    requires kind.Omit? || kind.Reorder? || kind.Repeat? || kind.ChangeSubject?
    ensures !Fits(permissions, control, e.(kind := kind))
  {
    var x := e.(kind := kind);
    assert Steps(permissions, x, true) == Steps(permissions, e, true);
    VariantsCounted(permissions, control, e);
    if Fits(permissions, control, x) {
      VariantsCounted(permissions, control, x);
    }
  }

  // ---------------------------------------------------------------------------------------------
  // Documents

  predicate UniqueExperiments(d: Document) {
    forall i, j | 0 <= i < j < |d.experiments| :: d.experiments[i].id != d.experiments[j].id
  }

  predicate UniqueInvocations(e: Experiment) {
    forall i, j | 0 <= i < j < |e.invocations| :: e.invocations[i].id != e.invocations[j].id
  }

  predicate HasNormal(d: Document, id: string) {
    exists i | 0 <= i < |d.experiments| :: d.experiments[i].id == id && d.experiments[i].kind.Normal?
  }

  /** What the document's own validators guarantee. */
  predicate Accepted(d: Document) {
    && UniqueExperiments(d)
    && (forall i | 0 <= i < |d.experiments| :: UniqueInvocations(d.experiments[i]))
    && (forall i | 0 <= i < |d.experiments| && !d.experiments[i].kind.Normal? ::
          d.experiments[i].control.Some? && HasNormal(d, d.experiments[i].control.value))
  }

  function FindExperiment(es: seq<Experiment>, id: string): (e: Experiment)
    requires exists i | 0 <= i < |es| :: es[i].id == id
    ensures e in es && e.id == id
  {
    if es[0].id == id then es[0] else FindExperiment(es[1..], id)
  }

  function ControlOf(d: Document, e: Experiment): (c: Experiment)
    requires Accepted(d) && e in d.experiments && !e.kind.Normal?
    ensures c in d.experiments && c.id == e.control.value
  {
    FindExperiment(d.experiments, e.control.value)
  }

  ghost predicate VariantsFit(d: Document, permissions: map<Permission, Mapped>)
    requires Accepted(d)
  {
    forall e | e in d.experiments && !e.kind.Normal? ::
      Known(permissions, ControlOf(d, e)) && Known(permissions, e) && Fits(permissions, ControlOf(d, e), e)
  }

  method ValidateExperimentVariants(d: Document, permissions: map<Permission, Mapped>) returns (ok: bool)
    requires Accepted(d)
    ensures ok <==> VariantsFit(d, permissions)
  {
    for n := 0 to |d.experiments|
      invariant forall k | 0 <= k < n && !d.experiments[k].kind.Normal? ::
        var e := d.experiments[k];
        Known(permissions, ControlOf(d, e)) && Known(permissions, e) && Fits(permissions, ControlOf(d, e), e)
    {
      var e := d.experiments[n];
      if !e.kind.Normal? {
        var control := ControlOf(d, e);
        if !Known(permissions, control) || !Known(permissions, e) {
          return false;
        }
        var fits := VariantFits(permissions, control, e);
        if !fits {
          return false;
        }
      }
    }
    return true;
  }
}
