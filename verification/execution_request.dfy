/** Execution requests: what their validators demand, and their canonical order.
 */
module ExecutionRequest {
  import opened Collections
  import opened Sorting

  datatype Reference = Reference(intent: string, revision: nat, digest: string)

  datatype Proof = Proof(effect: string, level: string, resource: string, fingerprint: string, entityQuery: bool,
                         procedure: string)

  datatype Permission = Permission(reference: Reference, denies: bool, effects: seq<string>,
                                   states: Option<set<string>>)

  datatype Role = AllowRegression | AllowControl | DenyChallenge

  /** A case; the facts of an identity are its actor, the actor's revision and the identity's fingerprint. */
  datatype Case = Case(id: string, roles: set<Role>, permission: Permission, subject: Option<string>,
                       subjectFacts: string, owner: string, ownerFacts: string, resource: string, execution: string,
                       effects: seq<string>, proofs: seq<Proof>, recovery: Option<string>, source: Option<string>,
                       config: string, occurrence: Option<string>)

  datatype Invariants = Invariants(resource: string, owner: string, ownerFacts: string, execution: string,
                                   proofs: seq<string>, recovery: Option<string>, source: Option<string>,
                                   config: string)

  datatype Twin = Twin(id: string, deny: string, allow: string, selected: Reference, effects: seq<string>,
                       invariants: Invariants, resourceState: bool, fingerprint: string)

  datatype Action = Action(id: string, revision: nat, semantics: string, cases: seq<Case>, twins: seq<Twin>)

  datatype Request = Request(project: string, source: Option<string>, config: string, epoch: nat, engine: string,
                             environment: bool, contexts: string, scenario: Option<string>, plan: string,
                             actions: seq<Action>)

  /** The digests, and the checks that see a request only through what is passed to them here: those of the
      scenario, and those of the requirements and the selection, which compare sets of permissions. */
  datatype Digests = Digests(caseId: (string, nat, Case) -> string, twin: Twin -> string,
                             plan: (Request, seq<Action>) -> string, scenario: (string, seq<Action>) -> bool,
                             scope: (string, set<Reference>, set<Reference>) -> bool)

  // ---------------------------------------------------------------------------------------------
  // Canonical order

  function ProofKey(p: Proof): Key { (p.effect, p.level) }
  function CaseKey(c: Case): Key { (c.id, "") }
  function TwinKey(t: Twin): Key { (t.id, "") }
  function ActionKey(a: Action): Key { (a.id, "") }
  function TextKey(s: string): Key { (s, "") }

  function CanonCase(c: Case): Case {
    c.(proofs := SortBy(ProofKey, c.proofs))
  }

  function CanonAction(a: Action): Action {
    a.(cases := Map(CanonCase, SortBy(CaseKey, a.cases)), twins := SortBy(TwinKey, a.twins))
  }

  function CanonActions(actions: seq<Action>): seq<Action> {
    Map(CanonAction, SortBy(ActionKey, actions))
  }

  function Canon(r: Request): Request {
    r.(actions := CanonActions(r.actions))
  }

  /** The lists are sorted one after the other, from the outside in. */
  method Canonicalise(r: Request) returns (canonical: Request)
    ensures canonical == Canon(r)
  {
    var actions := SortBy(ActionKey, r.actions);
    ghost var sorted := actions;
    for i := 0 to |actions|
      invariant |actions| == |sorted|
      invariant forall k | 0 <= k < i :: actions[k] == CanonAction(sorted[k])
      invariant forall k | i <= k < |sorted| :: actions[k] == sorted[k]
    {
      var cases := SortBy(CaseKey, actions[i].cases);
      ghost var inOrder := cases;
      for j := 0 to |cases|
        invariant |cases| == |inOrder|
        invariant forall k | 0 <= k < j :: cases[k] == CanonCase(inOrder[k])
        invariant forall k | j <= k < |inOrder| :: cases[k] == inOrder[k]
      {
        cases := cases[j := cases[j].(proofs := SortBy(ProofKey, cases[j].proofs))];
      }
      assert cases == Map(CanonCase, inOrder);
      actions := actions[i := actions[i].(cases := cases, twins := SortBy(TwinKey, actions[i].twins))];
    }
    assert actions == CanonActions(r.actions);
    return r.(actions := actions);
  }

  // ---------------------------------------------------------------------------------------------
  // Validators

  predicate VerdictFor(c: Case, effect: string) {
    exists p | p in c.proofs :: p.effect == effect && p.level == "VERDICT_REQUIRED"
  }

  predicate CaseValid(c: Case) {
    && (c.permission.denies <==> c.roles == {DenyChallenge})
    && (AllowRegression in c.roles ==> c.effects == c.permission.effects)
    && (forall e | e in c.effects :: e in c.permission.effects)
    && (forall p | p in c.proofs :: p.resource == c.resource && p.effect in c.effects)
    && UniqueBy(ProofKey, c.proofs)
    && (forall e | e in c.effects :: VerdictFor(c, e))
  }

  /** What a case is identified by: everything but its id and roles, with the proofs in order. */
  function FactsOf(c: Case): Case {
    CanonCase(c).(id := "", roles := {})
  }

  function Fingerprint(p: Proof): string { p.fingerprint }

  function InvariantsOf(c: Case): Invariants {
    Invariants(c.resource, c.owner, c.ownerFacts, c.execution, SortBy(TextKey, Map(Fingerprint, c.proofs)),
               c.recovery, c.source, c.config)
  }

  function MethodOf(p: Proof): Proof { p.(resource := "", fingerprint := "") }

  function Methods(c: Case): seq<Proof> {
    Map(MethodOf, SortBy(ProofKey, c.proofs))
  }

  /** Only the state of the resource differs: other test data, the same ownership, execution and proof methods. */
  predicate ConditionalTwin(deny: Case, allow: Case) {
    var left, right := deny.permission.states, allow.permission.states;
    && left.Some? && right.Some? && left.value != {} && right.value != {} && left.value !! right.value
    && deny.resource != allow.resource
    && InvariantsOf(deny).(resource := "", proofs := []) == InvariantsOf(allow).(resource := "", proofs := [])
    && Methods(deny) == Methods(allow)
  }

  predicate TwinHolds(d: Digests, t: Twin, deny: Case, allow: Case) {
    && deny.id == t.deny && allow.id == t.allow
    && deny.permission.denies && AllowControl in allow.roles
    && allow.permission.reference == t.selected
    && deny.effects == allow.effects == t.effects
    && InvariantsOf(deny) == t.invariants
    && (if t.resourceState then ConditionalTwin(deny, allow) else InvariantsOf(deny) == InvariantsOf(allow))
    && t.fingerprint == d.twin(t.(fingerprint := ""))
  }

  predicate TwinValid(d: Digests, a: Action, t: Twin) {
    exists deny, allow | deny in a.cases && allow in a.cases :: TwinHolds(d, t, deny, allow)
  }

  predicate DeniedIn(a: Action, id: string) {
    exists t | t in a.twins :: t.deny == id
  }

  predicate NeedsTwin(a: Action, c: Case) {
    c.permission.denies && (c.occurrence.None? || DeniedIn(a, c.id))
  }

  function DenyIds(a: Action): set<string> {
    set c | c in a.cases && NeedsTwin(a, c) :: c.id
  }

  function ControlIds(a: Action): set<string> {
    set c | c in a.cases && AllowControl in c.roles :: c.id
  }

  function Denied(a: Action): set<string> {
    set t | t in a.twins :: t.deny
  }

  function Allowed(a: Action): set<string> {
    set t | t in a.twins :: t.allow
  }

  predicate CaseIdentified(d: Digests, a: Action, c: Case) {
    CaseValid(c) && c.id == d.caseId(a.id, a.revision, FactsOf(c))
  }

  predicate ActionValid(d: Digests, a: Action) {
    && UniqueBy(CaseKey, a.cases) && UniqueBy(TwinKey, a.twins)
    && (forall c | c in a.cases :: CaseIdentified(d, a, c))
    && (forall t | t in a.twins :: TwinValid(d, a, t))
    && |a.twins| == |DenyIds(a)| && Denied(a) == DenyIds(a)
    && ControlIds(a) == Allowed(a)
  }

  predicate Holds(r: Request, c: Case) {
    exists a | a in r.actions :: c in a.cases
  }

  /** What a case says of an identity. */
  predicate Says(c: Case, identity: string, facts: string) {
    (c.subject == Some(identity) && c.subjectFacts == facts) || (c.owner == identity && c.ownerFacts == facts)
  }

  /** No identity has two sets of facts. */
  ghost predicate IdentitiesAgree(r: Request) {
    forall c, e, identity, f, g | Holds(r, c) && Holds(r, e) && Says(c, identity, f) && Says(e, identity, g) :: f == g
  }

  predicate CaseInRequest(r: Request, c: Case) {
    && c.source == r.source && c.config == r.config
    && (r.scenario.None? ==> c.occurrence.None?)
    && (!r.environment ==> forall p | p in c.proofs :: !p.entityQuery)
  }

  predicate CasesApart(r: Request) {
    forall a, b | a in r.actions && b in r.actions && a.id != b.id ::
      forall c, e | c in a.cases && e in b.cases :: c.id != e.id
  }

  function Permissions(r: Request): set<Reference> {
    set a, c | a in r.actions && c in a.cases :: c.permission.reference
  }

  function Controls(r: Request): set<Reference> {
    set a, c | a in r.actions && c in a.cases && AllowControl in c.roles :: c.permission.reference
  }

  /** The part of a request, beside its actions, that its plan is made of. */
  function PlanHeader(r: Request): Request {
    r.(config := "", environment := false, contexts := "", plan := "", actions := [])
  }

  ghost predicate Valid(d: Digests, r: Request) {
    && r.actions != [] && UniqueBy(ActionKey, r.actions)
    && (r.source.None? ==> r.environment)
    && (forall a | a in r.actions :: ActionValid(d, a))
    && (forall c | Holds(r, c) :: CaseInRequest(r, c))
    && CasesApart(r) && IdentitiesAgree(r)
    && (r.scenario.Some? ==> d.scenario(r.scenario.value, r.actions))
    && r.plan == d.plan(PlanHeader(r), CanonActions(r.actions))
    && d.scope(r.contexts, Permissions(r), Controls(r))
  }

  /** The check of identities, case by case: the first facts of an identity stay, and others must repeat them. */
  method CheckIdentities(cases: seq<Case>) returns (ok: bool)
    ensures ok <==>
              forall c, e, identity, f, g | c in cases && e in cases && Says(c, identity, f) && Says(e, identity, g) ::
                f == g
  {
    var identities: map<string, string> := map[];
    for i := 0 to |cases|
      invariant forall k, identity, f | 0 <= k < i && Says(cases[k], identity, f) ::
                  identity in identities && identities[identity] == f
      invariant forall identity | identity in identities :: exists k | 0 <= k < i ::
          Says(cases[k], identity, identities[identity])
    {
      var c := cases[i];
      if c.subject.Some? {
        var known;
        known, identities := SetDefault(identities, c.subject.value, c.subjectFacts);
        if !known {
          var k :| 0 <= k < i && Says(cases[k], c.subject.value, identities[c.subject.value]);
          assert Says(c, c.subject.value, c.subjectFacts);
          return false;
        }
        assert Says(cases[i], c.subject.value, identities[c.subject.value]);
      }
      var known;
      known, identities := SetDefault(identities, c.owner, c.ownerFacts);
      if !known {
        assert Says(c, c.owner, c.ownerFacts);
        assert exists k | 0 <= k < i + 1 :: Says(cases[k], c.owner, identities[c.owner]);
        return false;
      }
      assert Says(cases[i], c.owner, identities[c.owner]);
    }
    return true;
  }

  method SetDefault(m: map<string, string>, key: string, value: string) returns (agrees: bool, r: map<string, string>)
    ensures r == if key in m then m else m[key := value]
    ensures agrees <==> r[key] == value
  {
    r := if key in m then m else m[key := value];
    agrees := r[key] == value;
  }
}
