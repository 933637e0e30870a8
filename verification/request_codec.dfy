/** Reading and writing execution requests: the order of a valid request is not part of what makes it valid, so its
    canonical bytes are read back as the sorted request.
 */
module RequestCodec {
  import opened Collections
  import opened Sorting
  import opened ExecutionRequest
  import opened CanonicalRequest
  import Scenarios
  import ScenarioCases

  // ---------------------------------------------------------------------------------------------
  // Validity does not depend on order

  lemma ValidCaseKeys(d: Digests, a: Action)
    requires ActionValid(d, a)
    ensures Keys(a)
  {
    forall c | c in a.cases ensures UniqueBy(ProofKey, c.proofs) {
      assert CaseIdentified(d, a, c);
    }
  }

  lemma ValidKeys(d: Digests, r: Request)
    requires Valid(d, r)
    ensures RequestKeys(r)
  {
    forall a | a in r.actions ensures Keys(a) {
      ValidCaseKeys(d, a);
    }
  }

  lemma CanonCaseValid(c: Case)
    requires CaseValid(c)
    ensures CaseValid(CanonCase(c))
  {
    var e := CanonCase(c);
    forall p ensures p in e.proofs <==> p in c.proofs {
      SortByMembers(ProofKey, c.proofs, p);
    }
    SortedUnique(ProofKey, c.proofs);
    forall x | x in e.effects ensures VerdictFor(e, x) {
      assert VerdictFor(c, x);
    }
  }

  lemma CanonCaseFacts(c: Case)
    requires UniqueBy(ProofKey, c.proofs)
    ensures FactsOf(CanonCase(c)) == FactsOf(c)
    ensures InvariantsOf(CanonCase(c)) == InvariantsOf(c)
    ensures Methods(CanonCase(c)) == Methods(c)
  {
    CanonCaseTwice(c);
    SortByKeeps(ProofKey, c.proofs);
    MapMultiset(Fingerprint, c.proofs, CanonCase(c).proofs);
    SortByAgree(TextKey, Map(Fingerprint, c.proofs), Map(Fingerprint, CanonCase(c).proofs));
  }

  lemma {:induction false} MapMultiset<T, U>(f: T -> U, a: seq<T>, b: seq<T>)
    requires multiset(a) == multiset(b)
    ensures multiset(Map(f, a)) == multiset(Map(f, b))
    decreases |a|
  {
    if a == [] {
      assert |multiset(b)| == 0;
      assert b == [];
    } else {
      assert a[0] in multiset(b);
      var j :| 0 <= j < |b| && b[j] == a[0];
      assert b == b[..j] + [b[j]] + b[j + 1..];
      assert a == [a[0]] + a[1..];
      assert multiset(Without(b, j)) == multiset(b) - multiset{a[0]};
      assert multiset(a[1..]) == multiset(a) - multiset{a[0]};
      MapMultiset(f, a[1..], Without(b, j));
      MapWithout(f, b, j);
      MapWithout(f, a, 0);
      assert Without(a, 0) == a[1..];
    }
  }

  lemma CanonTwinHolds(d: Digests, t: Twin, deny: Case, allow: Case)
    requires UniqueBy(ProofKey, deny.proofs) && UniqueBy(ProofKey, allow.proofs) && TwinHolds(d, t, deny, allow)
    ensures TwinHolds(d, t, CanonCase(deny), CanonCase(allow))
  {
    CanonCaseFacts(deny);
    CanonCaseFacts(allow);
  }

  lemma CanonTwinValid(d: Digests, a: Action, t: Twin)
    requires Keys(a) && TwinValid(d, a, t)
    ensures TwinValid(d, CanonAction(a), t)
  {
    var deny, allow :| deny in a.cases && allow in a.cases && TwinHolds(d, t, deny, allow);
    CanonTwinHolds(d, t, deny, allow);
    CanonCaseIn(a, deny);
    CanonCaseIn(a, allow);
  }

  lemma CanonTwins(a: Action, t: Twin)
    ensures t in CanonAction(a).twins <==> t in a.twins
  {
    SortByMembers(TwinKey, a.twins, t);
  }

  lemma CanonNeedsTwin(a: Action, c: Case)
    ensures NeedsTwin(CanonAction(a), CanonCase(c)) <==> NeedsTwin(a, c)
  {
    forall t ensures t in CanonAction(a).twins <==> t in a.twins {
      CanonTwins(a, t);
    }
  }

  lemma CanonDenyIds(a: Action)
    ensures DenyIds(CanonAction(a)) == DenyIds(a) && ControlIds(CanonAction(a)) == ControlIds(a)
  {
    var b := CanonAction(a);
    forall c | c in a.cases
      ensures CanonCase(c) in b.cases && CanonCase(c).id == c.id
      ensures NeedsTwin(b, CanonCase(c)) <==> NeedsTwin(a, c)
    {
      CanonCaseIn(a, c);
      CanonNeedsTwin(a, c);
    }
    forall id | id in DenyIds(b) ensures id in DenyIds(a) {
      var c :| c in b.cases && NeedsTwin(b, c) && c.id == id;
      var e := CanonCaseOf(a, c);
      CanonNeedsTwin(a, e);
    }
    forall id | id in ControlIds(b) ensures id in ControlIds(a) {
      var c :| c in b.cases && AllowControl in c.roles && c.id == id;
      var e := CanonCaseOf(a, c);
    }
    forall id | id in ControlIds(a) ensures id in ControlIds(b) {
      var c :| c in a.cases && AllowControl in c.roles && c.id == id;
      assert CanonCase(c) in b.cases;
    }
    forall id | id in DenyIds(a) ensures id in DenyIds(b) {
      var c :| c in a.cases && NeedsTwin(a, c) && c.id == id;
      assert CanonCase(c) in b.cases;
    }
  }

  lemma CanonTwinIds(a: Action)
    ensures Denied(CanonAction(a)) == Denied(a)
    ensures ExecutionRequest.Allowed(CanonAction(a)) == ExecutionRequest.Allowed(a)
  {
    forall t ensures t in CanonAction(a).twins <==> t in a.twins {
      CanonTwins(a, t);
    }
  }

  lemma CanonIdentified(d: Digests, a: Action, c: Case)
    requires ActionValid(d, a) && c in CanonAction(a).cases
    ensures CaseIdentified(d, CanonAction(a), c)
  {
    var e := CanonCaseOf(a, c);
    assert CaseIdentified(d, a, e);
    CanonCaseValid(e);
    CanonCaseFacts(e);
  }

  lemma CanonActionValid(d: Digests, a: Action)
    requires ActionValid(d, a)
    ensures ActionValid(d, CanonAction(a))
  {
    var b := CanonAction(a);
    ValidCaseKeys(d, a);
    CanonKeys(a);
    forall c | c in b.cases ensures CaseIdentified(d, b, c) {
      CanonIdentified(d, a, c);
    }
    forall t | t in b.twins ensures TwinValid(d, b, t) {
      CanonTwins(a, t);
      CanonTwinValid(d, a, t);
    }
    SortByKeeps(TwinKey, a.twins);
    CanonDenyIds(a);
    CanonTwinIds(a);
  }

  /** The cases of the canonical request are the canonical cases. */
  lemma CanonHolds(r: Request, c: Case) returns (e: Case)
    requires Holds(Canon(r), c)
    ensures Holds(r, e) && c == CanonCase(e)
  {
    var a :| a in Canon(r).actions && c in a.cases;
    var b := CanonActionOf(r, a);
    e := CanonCaseOf(b, c);
  }

  lemma CanonCasesInRequest(r: Request, c: Case)
    requires Holds(Canon(r), c) && forall e | Holds(r, e) :: CaseInRequest(r, e)
    ensures CaseInRequest(Canon(r), c)
  {
    var e := CanonHolds(r, c);
    forall p | p in c.proofs ensures p in e.proofs {
      SortByMembers(ProofKey, e.proofs, p);
    }
  }

  lemma CanonIdentities(r: Request)
    requires IdentitiesAgree(r)
    ensures IdentitiesAgree(Canon(r))
  {
    forall c, e, identity, f, g |
        Holds(Canon(r), c) && Holds(Canon(r), e) && Says(c, identity, f) && Says(e, identity, g)
      ensures f == g
    {
      var x := CanonHolds(r, c);
      var y := CanonHolds(r, e);
      assert Says(x, identity, f) && Says(y, identity, g);
    }
  }

  lemma CanonCasesApart(r: Request)
    requires CasesApart(r)
    ensures CasesApart(Canon(r))
  {
    var q := Canon(r);
    forall a, b, c, e | a in q.actions && b in q.actions && a.id != b.id && c in a.cases && e in b.cases
      ensures c.id != e.id
    {
      var x := CanonActionOf(r, a);
      var y := CanonActionOf(r, b);
      var f := CanonCaseOf(x, c);
      var g := CanonCaseOf(y, e);
    }
  }

  lemma CanonScope(r: Request)
    ensures Permissions(Canon(r)) == Permissions(r) && Controls(Canon(r)) == Controls(r)
  {
    var q := Canon(r);
    forall a, c | a in r.actions && c in a.cases
      ensures CanonAction(a) in q.actions && CanonCase(c) in CanonAction(a).cases
      ensures CanonCase(c).permission == c.permission && CanonCase(c).roles == c.roles
    {
      CanonActionIn(r, a);
      CanonCaseIn(a, c);
    }
    forall p | p in Permissions(q) ensures p in Permissions(r) {
      var a, c :| a in q.actions && c in a.cases && c.permission.reference == p;
      var b := CanonActionOf(r, a);
      var e := CanonCaseOf(b, c);
    }
    forall p | p in Controls(q) ensures p in Controls(r) {
      var a, c :| a in q.actions && c in a.cases && AllowControl in c.roles && c.permission.reference == p;
      var b := CanonActionOf(r, a);
      var e := CanonCaseOf(b, c);
    }
    CanonScopeOnto(r);
  }

  lemma CanonScopeOnto(r: Request)
    ensures Permissions(r) <= Permissions(Canon(r)) && Controls(r) <= Controls(Canon(r))
  {
    forall p | p in Permissions(r) ensures p in Permissions(Canon(r)) {
      var a, c :| a in r.actions && c in a.cases && c.permission.reference == p;
      CanonActionIn(r, a);
      CanonCaseIn(a, c);
      assert CanonCase(c).permission.reference == p;
    }
    forall p | p in Controls(r) ensures p in Controls(Canon(r)) {
      var a, c :| a in r.actions && c in a.cases && AllowControl in c.roles && c.permission.reference == p;
      CanonActionIn(r, a);
      CanonCaseIn(a, c);
      assert CanonCase(c).permission.reference == p && AllowControl in CanonCase(c).roles;
    }
  }

  predicate ScenarioHolds(d: Digests, r: Request) {
    r.scenario.Some? ==> d.scenario(r.scenario.value, r.actions)
  }

  /** A valid request stays valid when it is sorted, exactly if its scenario, when it has one, still accepts the
      sorted actions. */
  lemma CanonValid(d: Digests, r: Request)
    requires Valid(d, r)
    ensures Valid(d, Canon(r)) <==> ScenarioHolds(d, Canon(r))
  {
    var q := Canon(r);
    ValidKeys(d, r);
    CanonTwice(r);
    SortByKeeps(ActionKey, r.actions);
    forall a | a in q.actions ensures ActionValid(d, a) {
      var b := CanonActionOf(r, a);
      CanonActionValid(d, b);
    }
    forall c | Holds(q, c) ensures CaseInRequest(q, c) {
      CanonCasesInRequest(r, c);
    }
    CanonIdentities(r);
    CanonCasesApart(r);
    CanonScope(r);
    assert PlanHeader(q) == PlanHeader(r);
  }

  /** How the check of a scenario reads a request: the document frozen under a name, and what a case is to it. */
  datatype Reading = Reading(frozen: string -> Scenarios.Scenario, entry: Case -> ScenarioCases.Entry)

  function Read(reading: Reading, actions: seq<Action>): (r: seq<ScenarioCases.ActionCases>)
    ensures |r| == |actions|
    ensures forall i | 0 <= i < |r| ::
              r[i] == ScenarioCases.ActionCases(actions[i].id, Map(reading.entry, actions[i].cases))
  {
    seq(|actions|, i requires 0 <= i < |actions| =>
      ScenarioCases.ActionCases(actions[i].id, Map(reading.entry, actions[i].cases)))
  }

  /** The scenario check is the one over the cases as they are read, which does not see the order of proofs. */
  ghost predicate Reads(d: Digests, reading: Reading) {
    && (forall c :: reading.entry(CanonCase(c)) == reading.entry(c))
    && (forall s, actions :: Scenarios.Accepted(reading.frozen(s).document) &&
          (d.scenario(s, actions) <==> ScenarioCases.ScenarioAccepted(reading.frozen(s), Read(reading, actions))))
  }

  lemma ReadLists(reading: Reading, actions: seq<Action>, id: string, e: ScenarioCases.Entry)
    ensures ScenarioCases.Lists(Read(reading, actions), id, e) <==>
              exists a, c | a in actions && c in a.cases :: a.id == id && reading.entry(c) == e
  {
    var read := Read(reading, actions);
    if ScenarioCases.Lists(read, id, e) {
      var i, j :| 0 <= i < |read| && read[i].action == id && 0 <= j < |read[i].entries| && read[i].entries[j] == e;
      assert actions[i] in actions && actions[i].cases[j] in actions[i].cases;
    }
    if a, c :| a in actions && c in a.cases && a.id == id && reading.entry(c) == e {
      var i :| 0 <= i < |actions| && actions[i] == a;
      var j :| 0 <= j < |a.cases| && a.cases[j] == c;
      assert read[i].entries[j] == e;
    }
  }

  lemma SortingKeepsLists(d: Digests, reading: Reading, r: Request, id: string, e: ScenarioCases.Entry)
    requires Reads(d, reading)
    ensures ScenarioCases.Lists(Read(reading, r.actions), id, e)
            <==> ScenarioCases.Lists(Read(reading, Canon(r).actions), id, e)
  {
    ReadLists(reading, r.actions, id, e);
    ReadLists(reading, Canon(r).actions, id, e);
    if a, c :| a in r.actions && c in a.cases && a.id == id && reading.entry(c) == e {
      CanonActionIn(r, a);
      CanonCaseIn(a, c);
    }
    if a, c :| a in Canon(r).actions && c in a.cases && a.id == id && reading.entry(c) == e {
      var b := CanonActionOf(r, a);
      var f := CanonCaseOf(b, c);
    }
  }

  /** A scenario accepts the sorted actions of a valid request if it is not ambiguous which action and conditions a
      permission stands for; where it is ambiguous, the later entry counts. */
  lemma ScenarioSurvivesSorting(d: Digests, reading: Reading, r: Request)
    requires Valid(d, r) && Reads(d, reading) && ScenarioCases.Unambiguous(Read(reading, r.actions))
    ensures Valid(d, Canon(r))
  {
    CanonValid(d, r);
    if r.scenario.Some? {
      forall id, e ensures ScenarioCases.Lists(Read(reading, r.actions), id, e)
          <==> ScenarioCases.Lists(Read(reading, Canon(r).actions), id, e)
      {
        SortingKeepsLists(d, reading, r, id, e);
      }
      ScenarioCases.OrderIsIrrelevant(reading.frozen(r.scenario.value), Read(reading, r.actions),
                                      Read(reading, Canon(r).actions));
    }
  }

  // ---------------------------------------------------------------------------------------------
  // Bytes

  const MAX_BYTES: nat := 1048576

  type Bytes = seq<bv8>

  /** The JSON encoding of a request, its reader, and the search for secrets in the bytes. */
  datatype Codec = Codec(encode: Request -> Bytes, decode: Bytes -> Option<Request>, secret: Bytes -> bool)

  /** What an encoding that drops nothing guarantees. */
  ghost predicate Faithful(codec: Codec) {
    forall r :: codec.decode(codec.encode(r)) == Some(r)
  }

  predicate WithinLimits(codec: Codec, raw: Bytes) {
    |raw| <= MAX_BYTES && !codec.secret(raw)
  }

  method CanonicalBytes(codec: Codec, r: Request) returns (raw: Option<Bytes>)
    ensures raw == CanonicalOf(codec, r)
  {
    var canonical := Canonicalise(r);
    var bytes := codec.encode(canonical);
    return if WithinLimits(codec, bytes) then Some(bytes) else None;
  }

  function CanonicalOf(codec: Codec, r: Request): Option<Bytes> {
    if WithinLimits(codec, codec.encode(Canon(r))) then Some(codec.encode(Canon(r))) else None
  }

  /** A request is read only from its canonical bytes. */
  ghost predicate Parses(codec: Codec, d: Digests, raw: Bytes, r: Request) {
    |raw| <= MAX_BYTES && codec.decode(raw) == Some(r) && Valid(d, r) && CanonicalOf(codec, r) == Some(raw)
  }

  /** Two valid requests within the limits have the same bytes exactly when they differ only in order. */
  lemma BytesAgreeExactly(codec: Codec, d: Digests, r: Request, q: Request)
    requires Faithful(codec) && Valid(d, r) && Valid(d, q)
    requires CanonicalOf(codec, r).Some? && CanonicalOf(codec, q).Some?
    ensures CanonicalOf(codec, r) == CanonicalOf(codec, q) <==> SameRequest(r, q)
  {
    ValidKeys(d, r);
    ValidKeys(d, q);
    RequestForms(r, q);
    if codec.encode(Canon(r)) == codec.encode(Canon(q)) {
      assert Some(Canon(r)) == Some(Canon(q));
    }
  }

  /** The canonical bytes of a valid request are read back as the sorted request and as no other, exactly if its
      scenario, when it has one, accepts the sorted actions. */
  lemma ParsesBackSorted(codec: Codec, d: Digests, r: Request, q: Request)
    requires Faithful(codec) && Valid(d, r) && CanonicalOf(codec, r).Some?
    ensures Parses(codec, d, CanonicalOf(codec, r).value, q) <==> q == Canon(r) && ScenarioHolds(d, q)
  {
    ValidKeys(d, r);
    CanonTwice(r);
    CanonValid(d, r);
  }

  /** A request that was read is sorted already, and writing it gives the bytes it was read from. */
  lemma ParsedIsCanonical(codec: Codec, d: Digests, raw: Bytes, r: Request)
    requires Faithful(codec) && Parses(codec, d, raw, r)
    ensures Canon(r) == r && CanonicalOf(codec, r) == Some(raw)
  {
    assert raw == codec.encode(Canon(r));
    assert codec.decode(raw) == Some(Canon(r));
  }
}
