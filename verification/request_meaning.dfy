/** What the validators of an execution request guarantee: which pairs of cases are twins, that each refusal has
    exactly one of them, and that each effect has exactly one deciding proof.
 */
module RequestMeaning {
  import opened Collections
  import opened Sorting
  import opened ExecutionRequest

  // ---------------------------------------------------------------------------------------------
  // Twins

  /** Owner, execution, recovery, source and configuration are the same. */
  predicate Alike(a: Case, b: Case) {
    && a.owner == b.owner && a.ownerFacts == b.ownerFacts && a.execution == b.execution
    && a.recovery == b.recovery && a.source == b.source && a.config == b.config
  }

  /** The fingerprints of the proofs, each as often as it occurs. */
  function Fingerprints(c: Case): multiset<string> {
    multiset(Map((p: Proof) => p.fingerprint, c.proofs))
  }

  /** The same resource in the same circumstances, proved by the same proofs. */
  predicate SameCircumstances(a: Case, b: Case) {
    a.resource == b.resource && Alike(a, b) && Fingerprints(a) == Fingerprints(b)
  }

  /** The proofs say the same, but for the resource and the fingerprint. */
  predicate SameMethod(p: Proof, q: Proof) {
    p.effect == q.effect && p.level == q.level && p.entityQuery == q.entityQuery && p.procedure == q.procedure
  }

  predicate MethodsIn(a: Case, b: Case) {
    forall p | p in a.proofs :: exists q | q in b.proofs :: SameMethod(p, q)
  }

  /** Another resource, in a state that excludes that of the first, in the same circumstances, proved by the same
      methods. */
  predicate OtherState(deny: Case, allow: Case) {
    && deny.permission.states.Some? && allow.permission.states.Some?
    && deny.permission.states.value != {} && allow.permission.states.value != {}
    && (forall x | x in deny.permission.states.value :: x !in allow.permission.states.value)
    && deny.resource != allow.resource && Alike(deny, allow) && MethodsIn(deny, allow) && MethodsIn(allow, deny)
  }

  /** The twin records the circumstances of the case. */
  predicate Records(i: Invariants, c: Case) {
    && i.resource == c.resource && i.owner == c.owner && i.ownerFacts == c.ownerFacts && i.execution == c.execution
    && i.recovery == c.recovery && i.source == c.source && i.config == c.config
    && multiset(i.proofs) == Fingerprints(c) && SortedBy(TextKey, i.proofs)
  }

  lemma SortedFingerprints(c: Case)
    ensures multiset(InvariantsOf(c).proofs) == Fingerprints(c) && SortedBy(TextKey, InvariantsOf(c).proofs)
  {
    assert Map(Fingerprint, c.proofs) == Map((p: Proof) => p.fingerprint, c.proofs);
    SortByKeeps(TextKey, Map(Fingerprint, c.proofs));
  }

  lemma RecordsExactly(i: Invariants, c: Case)
    ensures InvariantsOf(c) == i <==> Records(i, c)
  {
    SortedFingerprints(c);
    if Records(i, c) {
      SortedDetermined(TextKey, InvariantsOf(c).proofs, i.proofs);
    }
  }

  lemma SameCircumstancesExactly(a: Case, b: Case)
    ensures InvariantsOf(a) == InvariantsOf(b) <==> SameCircumstances(a, b)
  {
    SortedFingerprints(b);
    RecordsExactly(InvariantsOf(b), a);
  }

  lemma MethodExactly(p: Proof, q: Proof)
    ensures MethodOf(p) == MethodOf(q) <==> SameMethod(p, q)
  {
  }

  lemma MethodsOf(c: Case, m: Proof)
    ensures m in Methods(c) <==> exists p | p in c.proofs :: MethodOf(p) == m
  {
    var sorted := SortBy(ProofKey, c.proofs);
    forall p ensures p in sorted <==> p in c.proofs {
      SortByMembers(ProofKey, c.proofs, p);
    }
    if m in Methods(c) {
      var i :| 0 <= i < |sorted| && Methods(c)[i] == m;
      assert sorted[i] in c.proofs;
    }
    if p :| p in c.proofs && MethodOf(p) == m {
      var i :| 0 <= i < |sorted| && sorted[i] == p;
      assert Methods(c)[i] == m;
    }
  }

  lemma MethodsSorted(c: Case)
    requires UniqueBy(ProofKey, c.proofs)
    ensures SortedBy(ProofKey, Methods(c)) && UniqueBy(ProofKey, Methods(c))
  {
    SortByKeeps(ProofKey, c.proofs);
    var sorted := SortBy(ProofKey, c.proofs);
    assert forall i | 0 <= i < |sorted| :: ProofKey(Methods(c)[i]) == ProofKey(sorted[i]);
    UniqueSorted(c.proofs);
  }

  lemma UniqueSorted(proofs: seq<Proof>)
    requires UniqueBy(ProofKey, proofs)
    ensures UniqueBy(ProofKey, SortBy(ProofKey, proofs))
  {
    SortByKeeps(ProofKey, proofs);
    UniqueShuffled(proofs, SortBy(ProofKey, proofs));
  }

  lemma UniqueShuffled(a: seq<Proof>, b: seq<Proof>)
    requires UniqueBy(ProofKey, a) && multiset(a) == multiset(b)
    ensures UniqueBy(ProofKey, b)
  {
    UniqueIsKeyed(ProofKey, a);
    KeyedShuffle(ProofKey, a, b);
    forall i, j | 0 <= i < j < |b| ensures ProofKey(b[i]) != ProofKey(b[j]) {
      OnceIn(a, b[i]);
      if b[i] == b[j] {
        TwiceIn(b, i, j);
      }
    }
  }

  lemma TwiceIn(s: seq<Proof>, i: nat, j: nat)
    requires i < j < |s| && s[i] == s[j]
    ensures multiset(s)[s[i]] >= 2
  {
    assert s == s[..j] + [s[j]] + s[j + 1..];
    assert s[..j][i] == s[i];
    assert s[i] in multiset(s[..j]);
  }

  lemma {:induction false} OnceIn(s: seq<Proof>, p: Proof)
    requires UniqueBy(ProofKey, s)
    ensures multiset(s)[p] <= 1
  {
    if s != [] {
      var init, last := s[..|s| - 1], s[|s| - 1];
      OnceIn(init, p);
      assert s == init + [last];
      if p == last {
        assert p !in init;
      }
    }
  }

  lemma MethodsMembers(deny: Case, allow: Case)
    ensures MethodsIn(deny, allow) <==> forall m | m in Methods(deny) :: m in Methods(allow)
  {
    forall m ensures m in Methods(deny) <==> exists p | p in deny.proofs :: MethodOf(p) == m {
      MethodsOf(deny, m);
    }
    forall m ensures m in Methods(allow) <==> exists q | q in allow.proofs :: MethodOf(q) == m {
      MethodsOf(allow, m);
    }
    forall p, q ensures MethodOf(p) == MethodOf(q) <==> SameMethod(p, q) {
      MethodExactly(p, q);
    }
    if forall m | m in Methods(deny) :: m in Methods(allow) {
      forall p | p in deny.proofs ensures exists q | q in allow.proofs :: SameMethod(p, q) {
        assert MethodOf(p) in Methods(allow);
        var q :| q in allow.proofs && MethodOf(q) == MethodOf(p);
      }
    }
  }

  lemma SameMethodsExactly(deny: Case, allow: Case)
    requires UniqueBy(ProofKey, deny.proofs) && UniqueBy(ProofKey, allow.proofs)
    ensures Methods(deny) == Methods(allow) <==> MethodsIn(deny, allow) && MethodsIn(allow, deny)
  {
    MethodsSorted(deny);
    MethodsSorted(allow);
    MethodsMembers(deny, allow);
    MethodsMembers(allow, deny);
    if MethodsIn(deny, allow) && MethodsIn(allow, deny) {
      var a, b := Methods(deny), Methods(allow);
      forall m ensures multiset(a)[m] == multiset(b)[m] {
        OnceIn(a, m);
        OnceIn(b, m);
        assert m in a <==> m in b;
        assert (m in multiset(a) <==> m in a) && (m in multiset(b) <==> m in b);
      }
      assert multiset(a) == multiset(b);
      UniqueIsKeyed(ProofKey, a);
      SortedDetermined(ProofKey, a, b);
    }
  }

  lemma OtherStateExactly(deny: Case, allow: Case)
    requires UniqueBy(ProofKey, deny.proofs) && UniqueBy(ProofKey, allow.proofs)
    ensures ConditionalTwin(deny, allow) <==> OtherState(deny, allow)
  {
    SameMethodsExactly(deny, allow);
  }

  /** Two cases are a twin exactly if the first must be refused and the second is a control under the permission
      selected, both have the effects and the first the circumstances recorded, and the second has the same
      circumstances, or differs in the state of its resource if the twin is about that. */
  lemma TwinExactly(d: Digests, t: Twin, deny: Case, allow: Case)
    requires CaseValid(deny) && CaseValid(allow)
    ensures TwinHolds(d, t, deny, allow) <==>
              && deny.id == t.deny && allow.id == t.allow && t.fingerprint == d.twin(t.(fingerprint := ""))
              && deny.permission.denies && AllowControl in allow.roles && allow.permission.reference == t.selected
              && deny.effects == t.effects && allow.effects == t.effects && Records(t.invariants, deny)
              && if t.resourceState then OtherState(deny, allow) else SameCircumstances(deny, allow)
  {
    RecordsExactly(t.invariants, deny);
    SameCircumstancesExactly(deny, allow);
    OtherStateExactly(deny, allow);
  }

  // ---------------------------------------------------------------------------------------------
  // Actions

  function DenyOf(t: Twin): string { t.deny }

  lemma DenialsDiffer(a: Action)
    requires |a.twins| == |Denied(a)|
    ensures forall i, j | 0 <= i < j < |a.twins| :: a.twins[i].deny != a.twins[j].deny
  {
    var xs := Map(DenyOf, a.twins);
    assert forall i | 0 <= i < |xs| :: a.twins[i] in a.twins;
    assert (set x | x in xs) == Denied(a);
    CountedOnce(xs);
  }

  lemma SameId(a: Action, c: Case, e: Case)
    requires UniqueBy(CaseKey, a.cases) && c in a.cases && e in a.cases && c.id == e.id
    ensures c == e
  {
    var i, j :| 0 <= i < |a.cases| && 0 <= j < |a.cases| && a.cases[i] == c && a.cases[j] == e;
    assert CaseKey(a.cases[i]) == CaseKey(a.cases[j]);
  }

  /** What a valid action knows of one of its twins. */
  ghost predicate Twins(a: Action, t: Twin, deny: Case, allow: Case) {
    && deny in a.cases && allow in a.cases && deny.id == t.deny && allow.id == t.allow
    && deny.permission.denies && AllowControl in allow.roles && allow.permission.reference == t.selected
    && deny.effects == t.effects && allow.effects == t.effects && Records(t.invariants, deny)
    && if t.resourceState then OtherState(deny, allow) else SameCircumstances(deny, allow)
  }

  lemma TwinOf(d: Digests, a: Action, t: Twin) returns (deny: Case, allow: Case)
    requires ActionValid(d, a) && t in a.twins
    ensures Twins(a, t, deny, allow)
  {
    assert TwinValid(d, a, t);
    deny, allow :| deny in a.cases && allow in a.cases && TwinHolds(d, t, deny, allow);
    assert CaseIdentified(d, a, deny) && CaseIdentified(d, a, allow);
    hide ActionValid;
    TwinExactly(d, t, deny, allow);
  }

  lemma TwinsAreCounted(d: Digests, a: Action)
    requires ActionValid(d, a)
    ensures |a.twins| == |Denied(a)| && Denied(a) == DenyIds(a) && UniqueBy(CaseKey, a.cases)
  {
  }

  lemma RefusalIsListed(a: Action, c: Case)
    requires Denied(a) == DenyIds(a) && c in a.cases && NeedsTwin(a, c)
    ensures c.id in Denied(a)
  {
    hide NeedsTwin;
  }

  lemma ListedIsTwin(a: Action, id: string) returns (i: nat)
    requires id in Denied(a)
    ensures i < |a.twins| && a.twins[i].deny == id
  {
    var t :| t in a.twins && t.deny == id;
    i :| 0 <= i < |a.twins| && a.twins[i] == t;
  }

  /** In a valid action, a case that must be refused, and is not left to a scenario, has exactly one twin. The twin's
      other case is a control of the action that differs from it in nothing the twin is not about. */
  lemma EachRefusalHasOneTwin(d: Digests, a: Action, c: Case) returns (i: nat, allow: Case)
    requires ActionValid(d, a) && c in a.cases && c.permission.denies && c.occurrence.None?
    ensures i < |a.twins| && a.twins[i].deny == c.id
    ensures forall j | 0 <= j < |a.twins| && j != i :: a.twins[j].deny != c.id
    ensures allow in a.cases && allow.id == a.twins[i].allow && AllowControl in allow.roles
    ensures allow.effects == c.effects && allow.permission.reference == a.twins[i].selected
    ensures if a.twins[i].resourceState then OtherState(c, allow) else SameCircumstances(c, allow)
  {
    hide ActionValid, OtherState, SameCircumstances, Denied, DenyIds, CaseKey;
    TwinsAreCounted(d, a);
    DenialsDiffer(a);
    RefusalIsListed(a, c);
    i := ListedIsTwin(a, c.id);
    var deny;
    deny, allow := TwinOf(d, a, a.twins[i]);
    SameId(a, c, deny);
  }

  /** And every control of a valid action is there for the twin of some refusal. */
  lemma EachControlIsUsed(d: Digests, a: Action, allow: Case) returns (t: Twin, deny: Case)
    requires ActionValid(d, a) && allow in a.cases && AllowControl in allow.roles
    ensures t in a.twins && t.allow == allow.id && deny in a.cases && deny.id == t.deny && deny.permission.denies
    ensures if t.resourceState then OtherState(deny, allow) else SameCircumstances(deny, allow)
  {
    assert allow.id in ControlIds(a);
    t :| t in a.twins && t.allow == allow.id;
    var other;
    TwinsAreCounted(d, a);
    hide ActionValid, OtherState, SameCircumstances;
    deny, other := TwinOf(d, a, t);
    SameId(a, allow, other);
  }

  lemma HeldIsValid(d: Digests, r: Request, c: Case)
    requires Valid(d, r) && Holds(r, c)
    ensures CaseValid(c)
  {
    var a :| a in r.actions && c in a.cases;
    assert ActionValid(d, a);
    hide Valid;
    assert CaseIdentified(d, a, c);
  }

  /** In a valid request each effect of each case is decided by exactly one proof, which is about the resource of that
      case; the effects are among those of its permission, and all of them if the case is a regression; and only the
      cases of a denial are challenges. */
  lemma EffectsAreProved(d: Digests, r: Request, c: Case, effect: string) returns (i: nat)
    requires Valid(d, r) && Holds(r, c) && effect in c.effects
    ensures i < |c.proofs| && c.proofs[i].effect == effect && c.proofs[i].level == "VERDICT_REQUIRED"
    ensures c.proofs[i].resource == c.resource
    ensures forall j | 0 <= j < |c.proofs| && j != i ::
              !(c.proofs[j].effect == effect && c.proofs[j].level == "VERDICT_REQUIRED")
    ensures effect in c.permission.effects && (AllowRegression in c.roles ==> c.effects == c.permission.effects)
    ensures DenyChallenge in c.roles && |c.roles| == 1 <==> c.permission.denies
  {
    HeldIsValid(d, r, c);
    hide Valid, Holds;
    OneRole(c.roles);
    i := VerdictProof(c, effect);
  }

  lemma VerdictProof(c: Case, effect: string) returns (i: nat)
    requires CaseValid(c) && effect in c.effects
    ensures i < |c.proofs| && c.proofs[i].effect == effect && c.proofs[i].level == "VERDICT_REQUIRED"
    ensures c.proofs[i].resource == c.resource
    ensures forall j | 0 <= j < |c.proofs| && j != i ::
              !(c.proofs[j].effect == effect && c.proofs[j].level == "VERDICT_REQUIRED")
  {
    assert VerdictFor(c, effect);
    var p :| p in c.proofs && p.effect == effect && p.level == "VERDICT_REQUIRED";
    i :| 0 <= i < |c.proofs| && c.proofs[i] == p;
    forall j | 0 <= j < |c.proofs| && j != i ensures ProofKey(c.proofs[j]) != ProofKey(c.proofs[i]) {
    }
  }

  lemma OneRole(roles: set<Role>)
    ensures roles == {DenyChallenge} <==> DenyChallenge in roles && |roles| == 1
  {
    if DenyChallenge in roles && |roles| == 1 {
      assert |roles - {DenyChallenge}| == 0;
    }
  }

  // ---------------------------------------------------------------------------------------------
  // What the digests identify

  /** Everything about the cases is the same, but for their ids, their roles and the order of their proofs. */
  predicate SameFacts(a: Case, b: Case) {
    && a.permission == b.permission && a.subject == b.subject && a.subjectFacts == b.subjectFacts
    && a.owner == b.owner && a.ownerFacts == b.ownerFacts && a.resource == b.resource && a.execution == b.execution
    && a.effects == b.effects && multiset(a.proofs) == multiset(b.proofs) && a.recovery == b.recovery
    && a.source == b.source && a.config == b.config && a.occurrence == b.occurrence
  }

  lemma FactsExactly(a: Case, b: Case)
    requires UniqueBy(ProofKey, a.proofs)
    ensures FactsOf(a) == FactsOf(b) <==> SameFacts(a, b)
  {
    UniqueIsKeyed(ProofKey, a.proofs);
    SortByAgree(ProofKey, a.proofs, b.proofs);
  }

  /** The id of a case identifies its facts, its action and the revision of that. */
  lemma IdIdentifiesCase(d: Digests, a: Action, b: Action, c: Case, e: Case)
    requires CaseIdentified(d, a, c) && CaseIdentified(d, b, e)
    requires forall i, m, x, j, n, y | d.caseId(i, m, x) == d.caseId(j, n, y) :: i == j && m == n && x == y
    ensures c.id == e.id <==> a.id == b.id && a.revision == b.revision && SameFacts(c, e)
  {
    FactsExactly(c, e);
  }

  /** The plan of a valid request identifies its project, source, policy epoch, engine and scenario, and its actions up
      to their order. */
  lemma PlanIdentifiesRequest(d: Digests, r: Request, q: Request)
    requires Valid(d, r) && Valid(d, q)
    requires forall x, s, y, t | d.plan(x, s) == d.plan(y, t) :: x == y && s == t
    ensures r.plan == q.plan
        <==> && r.project == q.project && r.source == q.source && r.epoch == q.epoch && r.engine == q.engine
             && r.scenario == q.scenario && CanonActions(r.actions) == CanonActions(q.actions)
  {
    assert r.plan == d.plan(PlanHeader(r), CanonActions(r.actions));
    assert q.plan == d.plan(PlanHeader(q), CanonActions(q.actions));
    hide Valid, CanonActions;
  }
}
