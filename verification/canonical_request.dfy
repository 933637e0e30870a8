/** Canonical request bytes: two valid requests have the same bytes exactly when they differ only in order.
 */
module CanonicalRequest {
  import opened Sorting
  import opened ExecutionRequest

  // ---------------------------------------------------------------------------------------------
  // Differing only in order

  predicate SameCase(c: Case, e: Case) {
    c.(proofs := []) == e.(proofs := []) && multiset(c.proofs) == multiset(e.proofs)
  }

  ghost predicate SameAction(a: Action, b: Action) {
    && a.(cases := [], twins := []) == b.(cases := [], twins := [])
    && Matched(SameCase, a.cases, b.cases) && multiset(a.twins) == multiset(b.twins)
  }

  /** The requests differ at most in the order of their actions, cases, twins and proofs. */
  ghost predicate SameRequest(r: Request, q: Request) {
    && r.(actions := []) == q.(actions := [])
    && Matched((a, b) => SameAction(a, b), r.actions, q.actions)
  }

  lemma CaseForms(c: Case, e: Case)
    requires UniqueBy(ProofKey, c.proofs)
    ensures SameCase(c, e) <==> CanonCase(c) == CanonCase(e)
  {
    UniqueIsKeyed(ProofKey, c.proofs);
    SortByAgree(ProofKey, c.proofs, e.proofs);
    if CanonCase(c) == CanonCase(e) {
      assert CanonCase(c).(proofs := []) == c.(proofs := []);
      assert CanonCase(e).(proofs := []) == e.(proofs := []);
    }
    if SameCase(c, e) {
      assert CanonCase(c) == c.(proofs := []).(proofs := CanonCase(c).proofs);
      assert CanonCase(e) == e.(proofs := []).(proofs := CanonCase(e).proofs);
    }
  }

  /** Every list that is sorted has no key twice. */
  predicate Keys(a: Action) {
    && UniqueBy(CaseKey, a.cases) && UniqueBy(TwinKey, a.twins)
    && forall c | c in a.cases :: UniqueBy(ProofKey, c.proofs)
  }

  lemma CanonCasesSorted(a: Action)
    requires Keys(a)
    ensures CanonAction(a).cases == SortBy(CaseKey, Map(CanonCase, a.cases))
    ensures Keyed(CaseKey, Map(CanonCase, a.cases))
  {
    SortByMapped(CaseKey, CanonCase, a.cases);
    assert UniqueBy(CaseKey, Map(CanonCase, a.cases));
    UniqueIsKeyed(CaseKey, Map(CanonCase, a.cases));
  }

  lemma CasesForms(a: Action, b: Action)
    requires Keys(a) && Keys(b)
    ensures Matched(SameCase, a.cases, b.cases) <==> CanonAction(a).cases == CanonAction(b).cases
  {
    forall c, e | c in a.cases && e in b.cases ensures SameCase(c, e) <==> CanonCase(c) == CanonCase(e) {
      CaseForms(c, e);
    }
    MatchedForms(SameCase, CanonCase, a.cases, b.cases);
    CanonCasesSorted(a);
    CanonCasesSorted(b);
    SortByAgree(CaseKey, Map(CanonCase, a.cases), Map(CanonCase, b.cases));
  }

  lemma TwinsForms(a: Action, b: Action)
    requires Keys(a)
    ensures multiset(a.twins) == multiset(b.twins) <==> CanonAction(a).twins == CanonAction(b).twins
  {
    UniqueIsKeyed(TwinKey, a.twins);
    SortByAgree(TwinKey, a.twins, b.twins);
  }

  lemma ActionForms(a: Action, b: Action)
    requires Keys(a) && Keys(b)
    ensures SameAction(a, b) <==> CanonAction(a) == CanonAction(b)
  {
    CasesForms(a, b);
    TwinsForms(a, b);
    var x, y := a.(cases := [], twins := []), b.(cases := [], twins := []);
    assert CanonAction(a) == x.(cases := CanonAction(a).cases, twins := CanonAction(a).twins);
    assert CanonAction(b) == y.(cases := CanonAction(b).cases, twins := CanonAction(b).twins);
    assert CanonAction(a).(cases := [], twins := []) == x && CanonAction(b).(cases := [], twins := []) == y;
  }

  predicate RequestKeys(r: Request) {
    UniqueBy(ActionKey, r.actions) && forall a | a in r.actions :: Keys(a)
  }

  lemma CanonActionsSorted(r: Request)
    requires RequestKeys(r)
    ensures Canon(r).actions == SortBy(ActionKey, Map(CanonAction, r.actions))
    ensures Keyed(ActionKey, Map(CanonAction, r.actions))
  {
    SortByMapped(ActionKey, CanonAction, r.actions);
    assert UniqueBy(ActionKey, Map(CanonAction, r.actions));
    UniqueIsKeyed(ActionKey, Map(CanonAction, r.actions));
  }

  /** Requests without repeated keys have the same canonical form exactly when they differ only in order. */
  lemma RequestForms(r: Request, q: Request)
    requires RequestKeys(r) && RequestKeys(q)
    ensures SameRequest(r, q) <==> Canon(r) == Canon(q)
  {
    var same := (a, b) => SameAction(a, b);
    forall a, b | a in r.actions && b in q.actions ensures same(a, b) <==> CanonAction(a) == CanonAction(b) {
      ActionForms(a, b);
    }
    MatchedForms(same, CanonAction, r.actions, q.actions);
    CanonActionsSorted(r);
    CanonActionsSorted(q);
    SortByAgree(ActionKey, Map(CanonAction, r.actions), Map(CanonAction, q.actions));
    var x, y := r.(actions := []), q.(actions := []);
    assert Canon(r) == x.(actions := Canon(r).actions) && Canon(q) == y.(actions := Canon(q).actions);
    assert Canon(r).(actions := []) == x && Canon(q).(actions := []) == y;
    assert SameRequest(r, q) <==> x == y && Matched(same, r.actions, q.actions);
  }

  // ---------------------------------------------------------------------------------------------
  // Sorting twice

  lemma CanonCaseTwice(c: Case)
    requires UniqueBy(ProofKey, c.proofs)
    ensures CanonCase(CanonCase(c)) == CanonCase(c) && UniqueBy(ProofKey, CanonCase(c).proofs)
  {
    UniqueIsKeyed(ProofKey, c.proofs);
    SortByIdempotent(ProofKey, c.proofs);
    SortedUnique(ProofKey, c.proofs);
  }

  lemma {:induction false} UniqueByMultiset<T>(key: T -> Key, a: seq<T>, b: seq<T>)
    requires multiset(a) == multiset(b) && UniqueBy(key, a)
    ensures UniqueBy(key, b)
  {
    forall i, j | 0 <= i < j < |b| ensures key(b[i]) != key(b[j]) {
      if key(b[i]) == key(b[j]) {
        assert b[i] in multiset(a) && b[j] in multiset(a);
        var k :| 0 <= k < |a| && a[k] == b[i];
        var l :| 0 <= l < |a| && a[l] == b[j];
        TwiceIn(b, i, j);
        OnceIn(key, a, k);
      }
    }
  }

  lemma TwiceIn<T>(b: seq<T>, i: nat, j: nat)
    requires i < j < |b|
    ensures b[i] == b[j] ==> multiset(b)[b[i]] >= 2
  {
    assert b == b[..i] + [b[i]] + b[i + 1..j] + [b[j]] + b[j + 1..];
  }

  lemma OnceIn<T>(key: T -> Key, a: seq<T>, k: nat)
    requires UniqueBy(key, a) && k < |a|
    ensures multiset(a)[a[k]] == 1
  {
    assert a == a[..k] + [a[k]] + a[k + 1..];
    assert a[k] !in a[..k] && a[k] !in a[k + 1..];
  }

  lemma SortedUnique<T>(key: T -> Key, s: seq<T>)
    requires UniqueBy(key, s)
    ensures UniqueBy(key, SortBy(key, s))
  {
    SortByKeeps(key, s);
    UniqueByMultiset(key, s, SortBy(key, s));
  }

  /** The cases of a canonical action are the canonical cases of the action. */
  lemma CanonCaseOf(a: Action, c: Case) returns (e: Case)
    requires c in CanonAction(a).cases
    ensures e in a.cases && c == CanonCase(e)
  {
    var i :| 0 <= i < |CanonAction(a).cases| && CanonAction(a).cases[i] == c;
    e := SortBy(CaseKey, a.cases)[i];
    SortByMembers(CaseKey, a.cases, e);
  }

  lemma CanonCaseIn(a: Action, e: Case)
    requires e in a.cases
    ensures CanonCase(e) in CanonAction(a).cases
  {
    SortByMembers(CaseKey, a.cases, e);
    var i :| 0 <= i < |SortBy(CaseKey, a.cases)| && SortBy(CaseKey, a.cases)[i] == e;
    assert CanonAction(a).cases[i] == CanonCase(e);
  }

  lemma CanonActionOf(r: Request, a: Action) returns (b: Action)
    requires a in Canon(r).actions
    ensures b in r.actions && a == CanonAction(b)
  {
    var i :| 0 <= i < |Canon(r).actions| && Canon(r).actions[i] == a;
    b := SortBy(ActionKey, r.actions)[i];
    SortByMembers(ActionKey, r.actions, b);
  }

  lemma CanonActionIn(r: Request, b: Action)
    requires b in r.actions
    ensures CanonAction(b) in Canon(r).actions
  {
    SortByMembers(ActionKey, r.actions, b);
    var i :| 0 <= i < |SortBy(ActionKey, r.actions)| && SortBy(ActionKey, r.actions)[i] == b;
    assert Canon(r).actions[i] == CanonAction(b);
  }

  lemma CanonKeys(a: Action)
    requires Keys(a)
    ensures Keys(CanonAction(a))
  {
    SortedUnique(CaseKey, a.cases);
    SortedUnique(TwinKey, a.twins);
    forall c | c in CanonAction(a).cases ensures UniqueBy(ProofKey, c.proofs) {
      var e := CanonCaseOf(a, c);
      SortedUnique(ProofKey, e.proofs);
    }
  }

  lemma CanonActionTwice(a: Action)
    requires Keys(a)
    ensures CanonAction(CanonAction(a)) == CanonAction(a)
  {
    var b := CanonAction(a);
    CanonKeys(a);
    CanonCasesSorted(a);
    CanonCasesSorted(b);
    forall i | 0 <= i < |b.cases| ensures CanonCase(b.cases[i]) == b.cases[i] {
      assert b.cases[i] in b.cases;
      var e := CanonCaseOf(a, b.cases[i]);
      CanonCaseTwice(e);
    }
    assert Map(CanonCase, b.cases) == b.cases;
    SortByIdempotent(CaseKey, Map(CanonCase, a.cases));
    UniqueIsKeyed(TwinKey, a.twins);
    SortByIdempotent(TwinKey, a.twins);
  }

  /** Canonicalisation changes nothing the second time. */
  lemma CanonTwice(r: Request)
    requires RequestKeys(r)
    ensures Canon(Canon(r)) == Canon(r) && RequestKeys(Canon(r))
  {
    var q := Canon(r);
    SortedUnique(ActionKey, r.actions);
    forall a | a in q.actions ensures Keys(a) && CanonAction(a) == a {
      var b := CanonActionOf(r, a);
      CanonKeys(b);
      CanonActionTwice(b);
    }
    assert UniqueBy(ActionKey, q.actions);
    CanonActionsSorted(r);
    CanonActionsSorted(q);
    assert Map(CanonAction, q.actions) == q.actions;
    SortByIdempotent(ActionKey, Map(CanonAction, r.actions));
  }
}
