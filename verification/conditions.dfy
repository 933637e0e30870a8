/** Permission conditions: matching one observation against a rule's conditions, and the static test
    that tells whether two rules could apply to the same observation.
 */
module Conditions {
  import opened Collections
  import opened Relationships

  datatype Principal = Authenticated | Anonymous
  datatype Tenant = SameTenant | DifferentTenant

  datatype PermissionConditions = PermissionConditions(principal: Principal, tenant: Option<Tenant>,
                                                       resourceStates: seq<string>, relationships: seq<Requirement>)
  {
    /** The shape every accepted condition has. */
    ghost predicate Meaningful() {
      && (forall r | r in relationships :: r.FiniteShape())
      && (forall i, j | 0 <= i < j < |relationships| :: relationships[i].kind != relationships[j].kind)
      && (principal == Anonymous ==> relationships == [] && tenant.None?)
      && (principal == Authenticated ==> tenant.Some? || resourceStates != [] || relationships != [])
    }
  }

  datatype Observation = Observation(principal: Principal, subjectTenant: Option<string>, ownerTenant: Option<string>,
                                     resourceTenant: Option<string>, resourceState: Option<string>,
                                     relationships: seq<Observed>)

  /** The observations answering one requirement; an observation names the exact requirement it answers. */
  function Answers(observed: seq<Observed>, r: Requirement): seq<Observed> {
    if observed == [] then []
    else (if observed[0].requirement == r then [observed[0]] else []) + Answers(observed[1..], r)
  }

  function MatchTenant(expected: Tenant, o: Observation): Status {
    if o.subjectTenant.None? || o.ownerTenant.None? || o.resourceTenant.None? then Unknown
    else if o.ownerTenant == o.resourceTenant
            && ((o.subjectTenant == o.resourceTenant) == (expected == SameTenant)) then Match
    else Mismatch
  }

  function MatchRequirement(r: Requirement, o: Observation): Status {
    var answers := Answers(o.relationships, r);
    if |answers| != 1 then Unknown else answers[0].status
  }

  /** A rule's conditions hold of an observation. */
  ghost predicate Holds(e: PermissionConditions, o: Observation) {
    && o.principal == e.principal
    && (e.tenant.Some? ==> MatchTenant(e.tenant.value, o) == Match)
    && (e.resourceStates != [] ==> o.resourceState.Some? && o.resourceState.value in e.resourceStates)
    && (forall r | r in e.relationships :: MatchRequirement(r, o) == Match)
  }

  /** Some fact the conditions ask about was not collected. */
  ghost predicate Uncollected(e: PermissionConditions, o: Observation) {
    || (e.tenant.Some? && MatchTenant(e.tenant.value, o) == Unknown)
    || (e.resourceStates != [] && o.resourceState.None?)
    || (exists r | r in e.relationships :: MatchRequirement(r, o) == Unknown)
  }

  ghost function MatchStatus(expected: Option<PermissionConditions>, observed: Option<Observation>): Status {
    if expected.None? then Match
    else if observed.None? || Uncollected(expected.value, observed.value) then Unknown
    else if Holds(expected.value, observed.value) then Match
    else Mismatch
  }

  /** Compares an observation with the expected conditions, check by check. */
  method MatchConditions(expected: Option<PermissionConditions>, observed: Option<Observation>) returns (status: Status)
    ensures status == MatchStatus(expected, observed)
  {
    if expected.None? {
      return Match;
    }
    if observed.None? {
      return Unknown;
    }
    var e, o := expected.value, observed.value;
    var checks := [o.principal == e.principal];
    if e.tenant.Some? {
      if o.subjectTenant.None? || o.ownerTenant.None? || o.resourceTenant.None? {
        return Unknown;
      }
      checks := checks + [o.ownerTenant == o.resourceTenant];
      var same := o.subjectTenant == o.resourceTenant;
      checks := checks + [same == (e.tenant.value == SameTenant)];
    }
    if e.resourceStates != [] {
      if o.resourceState.None? {
        return Unknown;
      }
      checks := checks + [o.resourceState.value in e.resourceStates];
    }
    ghost var facts := false !in checks;
    for i := 0 to |e.relationships|
      invariant forall k | 0 <= k < i :: MatchRequirement(e.relationships[k], o) != Unknown
      invariant false !in checks <==> facts && forall k | 0 <= k < i :: MatchRequirement(e.relationships[k], o) == Match
    {
      var answers := Answers(o.relationships, e.relationships[i]);
      if |answers| != 1 || answers[0].status == Unknown {
        assert e.relationships[i] in e.relationships;
        return Unknown;
      }
      checks := checks + [answers[0].status == Match];
    }
    return if false !in checks then Match else Mismatch;
  }

  ghost function CollectedStates(expected: Option<PermissionConditions>, observations: seq<Observation>): set<Status> {
    set o | o in observations :: MatchStatus(expected, Some(o))
  }

  /** Conditions collected over several observations: all must match. */
  ghost function CollectedStatus(expected: Option<PermissionConditions>, observations: seq<Observation>): Status {
    var states := CollectedStates(expected, observations);
    if expected.None? then Match
    else if states == {} || Unknown in states then Unknown
    else if Mismatch in states then Mismatch
    else Match
  }

  predicate Disjoint(a: seq<string>, b: seq<string>) {
    forall x | x in a :: x !in b
  }

  /** The static overlap test. */
  predicate Overlap(left: Option<PermissionConditions>, right: Option<PermissionConditions>) {
    && PrincipalOf(left) == PrincipalOf(right)
    && (left.None? || right.None? ||
        var l, r := left.value, right.value;
        && !(l.tenant.Some? && r.tenant.Some? && l.tenant != r.tenant)
        && !(exists a, b | a in l.relationships && b in r.relationships :: Conflict(a, b))
        && !(l.resourceStates != [] && r.resourceStates != [] && Disjoint(l.resourceStates, r.resourceStates)))
  }

  function PrincipalOf(c: Option<PermissionConditions>): Principal {
    if c.Some? then c.value.principal else Authenticated
  }

  /** Two requirements ask the same question and want different answers. */
  predicate Conflict(a: Requirement, b: Requirement) {
    a.(state := b.state) == b && a.state != b.state
  }

  /** Every relationship fact in the observation was observed in the one snapshot s. */
  ghost predicate FromSnapshot(o: Observation, s: Snapshot) {
    forall x | x in o.relationships :: x.requirement.FiniteShape() && x.status == RelationshipStatus(x.requirement, s)
  }

  lemma {:induction false} AnswersAreObserved(observed: seq<Observed>, r: Requirement, x: Observed)
    ensures x in Answers(observed, r) <==> x in observed && x.requirement == r
  {
    if observed != [] {
      AnswersAreObserved(observed[1..], r, x);
    }
  }

  lemma MatchedFromSnapshot(r: Requirement, o: Observation, s: Snapshot)
    requires FromSnapshot(o, s) && MatchRequirement(r, o) == Match
    ensures r.FiniteShape() && RelationshipStatus(r, s) == Match
  {
    AnswersAreObserved(o.relationships, r, Answers(o.relationships, r)[0]);
  }

  ghost predicate BothMatch(left: Option<PermissionConditions>, right: Option<PermissionConditions>, o: Observation) {
    MatchStatus(left, Some(o)) == Match && MatchStatus(right, Some(o)) == Match
  }

  /** One side is unconditional and the other is about anonymous principals. */
  predicate UnconditionalMeetsAnonymous(left: Option<PermissionConditions>, right: Option<PermissionConditions>) {
    || (left.None? && PrincipalOf(right) == Anonymous)
    || (right.None? && PrincipalOf(left) == Anonymous)
  }

  /** The overlap test is sound: two conditions it keeps apart never both match an observation drawn from
      one snapshot, an absent condition being read as one about an authenticated principal. */
  lemma OverlapSound(left: Option<PermissionConditions>, right: Option<PermissionConditions>, o: Observation,
      s: Snapshot)
    requires !Overlap(left, right) && FromSnapshot(o, s)
    requires left.None? || right.None? ==> o.principal == Authenticated
    ensures !BothMatch(left, right, o)
  {
    if BothMatch(left, right, o) && left.Some? && right.Some? {
      var l, r := left.value, right.value;
      if exists a, b | a in l.relationships && b in r.relationships :: Conflict(a, b) {
        var a, b :| a in l.relationships && b in r.relationships && Conflict(a, b);
        MatchedFromSnapshot(a, o, s);
        MatchedFromSnapshot(b, o, s);
        StatesExclude(a, s, b.state);
      }
    }
  }

  /** The matcher itself does not read an absent condition that way. What it keeps apart is therefore exactly
      this: conditions that do not overlap can both match one snapshot's observation if and only if one side
      is unconditional and the other is about anonymous principals. */
  lemma OverlapSoundExactly(left: Option<PermissionConditions>, right: Option<PermissionConditions>, s: Snapshot)
    requires !Overlap(left, right)
    requires left.Some? ==> left.value.Meaningful()
    requires right.Some? ==> right.value.Meaningful()
    ensures (exists o :: FromSnapshot(o, s) && BothMatch(left, right, o)) <==> UnconditionalMeetsAnonymous(left, right)
  {
    if UnconditionalMeetsAnonymous(left, right) {
      var c := if left.None? then right.value else left.value;
      var state := if c.resourceStates == [] then None else Some(c.resourceStates[0]);
      var o := Observation(Anonymous, None, None, None, state, []);
      assert Holds(c, o) && !Uncollected(c, o);
      assert FromSnapshot(o, s) && BothMatch(left, right, o);
    } else {
      forall o | FromSnapshot(o, s) ensures !BothMatch(left, right, o) {
        if left.Some? && right.Some? {
          OverlapSound(left, right, o, s);
        }
      }
    }
  }

  // ---------------------------------------------------------------------------------------------
  // What the overlap test decides

  /** No two facts of the observation answer the same question, about the same kind, scope, role and depth, with
      different states. */
  ghost predicate IsConsistent(o: Observation) {
    forall x, y | x in o.relationships && y in o.relationships && x.status == Match && y.status == Match ::
      var a, b := x.requirement, y.requirement;
      a.kind == b.kind && a.scope == b.scope && a.inheritedRole == b.inheritedRole && a.maxDepth == b.maxDepth
      ==> a.state == b.state
  }

  lemma ConflictExactly(a: Requirement, b: Requirement)
    ensures Conflict(a, b)
        <==> a.kind == b.kind && a.scope == b.scope && a.inheritedRole == b.inheritedRole && a.maxDepth == b.maxDepth
             && a.state != b.state
  {
  }

  /** Facts drawn from one snapshot are consistent. */
  lemma SnapshotsAreConsistent(o: Observation, s: Snapshot)
    requires FromSnapshot(o, s)
    ensures IsConsistent(o)
  {
    forall x, y | x in o.relationships && y in o.relationships && x.status == Match && y.status == Match
      ensures !Conflict(x.requirement, y.requirement)
    {
      if Conflict(x.requirement, y.requirement) {
        StatesExclude(x.requirement, s, y.requirement.state);
      }
    }
    forall a: Requirement, b: Requirement ensures Conflict(a, b) <==>
        a.kind == b.kind && a.scope == b.scope && a.inheritedRole == b.inheritedRole && a.maxDepth == b.maxDepth
        && a.state != b.state
    {
      ConflictExactly(a, b);
    }
  }

  /** The observation in which every one of these requirements is met. */
  function Met(rs: seq<Requirement>): (observed: seq<Observed>)
    ensures |observed| == |rs| && forall i | 0 <= i < |rs| :: observed[i] == Observed(rs[i], Match, [])
  {
    seq(|rs|, i requires 0 <= i < |rs| => Observed(rs[i], Match, []))
  }

  predicate AllDifferent(rs: seq<Requirement>) {
    forall i, j | 0 <= i < j < |rs| :: rs[i] != rs[j]
  }

  lemma {:induction false} MetAnswers(rs: seq<Requirement>, r: Requirement)
    requires AllDifferent(rs)
    ensures Answers(Met(rs), r) == if r in rs then [Observed(r, Match, [])] else []
  {
    if rs != [] {
      assert Met(rs)[1..] == Met(rs[1..]);
      MetAnswers(rs[1..], r);
      assert rs == [rs[0]] + rs[1..];
      forall x | x in rs[1..] ensures x != rs[0] {
        var i :| 0 <= i < |rs| - 1 && rs[1..][i] == x;
        assert rs[i + 1] == x;
      }
    }
  }

  /** The requirements of both sides, each once. */
  lemma {:induction false} Joined(a: seq<Requirement>, b: seq<Requirement>) returns (all: seq<Requirement>)
    requires AllDifferent(a)
    ensures AllDifferent(all) && forall r :: r in all <==> r in a || r in b
  {
    if b == [] {
      all := a;
    } else {
      var init, last := b[..|b| - 1], b[|b| - 1];
      var most := Joined(a, init);
      all := if last in most then most else most + [last];
      assert b == init + [last];
    }
  }

  lemma CommonState(a: seq<string>, b: seq<string>) returns (state: Option<string>)
    requires !(a != [] && b != [] && Disjoint(a, b))
    ensures a != [] ==> state.Some? && state.value in a
    ensures b != [] ==> state.Some? && state.value in b
  {
    if a == [] && b == [] {
      state := None;
    } else if a == [] {
      state := Some(b[0]);
    } else if b == [] {
      state := Some(a[0]);
    } else {
      var x :| x in a && x in b;
      state := Some(x);
    }
  }

  /** An observation with these facts, whose tenants are as expected and whose relationships are all met. */
  function Sample(principal: Principal, tenant: Option<Tenant>, state: Option<string>, rs: seq<Requirement>):
    Observation
  {
    var subject := if tenant == Some(DifferentTenant) then "other" else "tenant";
    Observation(principal, Some(subject), Some("tenant"), Some("tenant"), state, Met(rs))
  }

  lemma SampleMatches(e: PermissionConditions, tenant: Option<Tenant>, state: Option<string>, rs: seq<Requirement>)
    requires AllDifferent(rs) && (forall r | r in e.relationships :: r in rs)
    requires e.tenant.Some? ==> tenant == e.tenant
    requires e.resourceStates != [] ==> state.Some? && state.value in e.resourceStates
    ensures MatchStatus(Some(e), Some(Sample(e.principal, tenant, state, rs))) == Match
  {
    var o := Sample(e.principal, tenant, state, rs);
    forall r | r in e.relationships ensures MatchRequirement(r, o) == Match {
      MetAnswers(rs, r);
    }
  }

  lemma SampleIsConsistent(l: PermissionConditions, r: PermissionConditions, tenant: Option<Tenant>,
                           state: Option<string>, rs: seq<Requirement>)
    requires l.Meaningful() && r.Meaningful()
    requires forall a, b | a in l.relationships && b in r.relationships :: !Conflict(a, b)
    requires forall x | x in rs :: x in l.relationships || x in r.relationships
    ensures IsConsistent(Sample(l.principal, tenant, state, rs))
  {
    var o := Sample(l.principal, tenant, state, rs);
    forall x, y | x in o.relationships && y in o.relationships
      ensures var a, b := x.requirement, y.requirement;
              a.kind == b.kind && a.scope == b.scope && a.inheritedRole == b.inheritedRole && a.maxDepth == b.maxDepth
              ==> a.state == b.state
    {
      var a, b := x.requirement, y.requirement;
      assert a in rs && b in rs;
      ConflictExactly(a, b);
      ConflictExactly(b, a);
      OneOfAKind(l, a, b);
      OneOfAKind(r, a, b);
    }
  }

  lemma OneOfAKind(e: PermissionConditions, a: Requirement, b: Requirement)
    requires e.Meaningful()
    ensures a in e.relationships && b in e.relationships && a.kind == b.kind ==> a == b
  {
  }

  lemma OverlapsItself(e: PermissionConditions)
    requires e.Meaningful()
    ensures Overlap(Some(e), Some(e))
  {
    forall a, b | a in e.relationships && b in e.relationships ensures !Conflict(a, b) {
      OneOfAKind(e, a, b);
    }
    if e.resourceStates != [] {
      assert e.resourceStates[0] in e.resourceStates;
    }
  }

  ghost predicate CanMeet(left: Option<PermissionConditions>, right: Option<PermissionConditions>, o: Observation) {
    IsConsistent(o) && BothMatch(left, right, o) && (left.None? || right.None? ==> o.principal == Authenticated)
  }

  lemma OverlapIsMet(l: PermissionConditions, r: PermissionConditions) returns (o: Observation)
    requires Overlap(Some(l), Some(r)) && l.Meaningful() && r.Meaningful()
    ensures CanMeet(Some(l), Some(r), o)
  {
    var tenant := if l.tenant.Some? then l.tenant else r.tenant;
    var state := CommonState(l.resourceStates, r.resourceStates);
    var rs := Joined(l.relationships, r.relationships);
    o := Sample(l.principal, tenant, state, rs);
    SampleMatches(l, tenant, state, rs);
    SampleMatches(r, tenant, state, rs);
    SampleIsConsistent(l, r, tenant, state, rs);
  }

  lemma NoOverlapIsNotMet(left: Option<PermissionConditions>, right: Option<PermissionConditions>, o: Observation)
    requires !Overlap(left, right)
    ensures !CanMeet(left, right, o)
  {
    if left.Some? && right.Some? && BothMatch(left, right, o) {
      var l, r := left.value, right.value;
      if a, b :| a in l.relationships && b in r.relationships && Conflict(a, b) {
        var x, y := Answers(o.relationships, a)[0], Answers(o.relationships, b)[0];
        AnswersAreObserved(o.relationships, a, x);
        AnswersAreObserved(o.relationships, b, y);
        ConflictExactly(a, b);
      }
    }
  }

  /** The test says yes exactly if some consistent observation meets both conditions, an absent condition being read
      as one about an authenticated principal. */
  lemma OverlapExactly(left: Option<PermissionConditions>, right: Option<PermissionConditions>)
    requires left.Some? ==> left.value.Meaningful()
    requires right.Some? ==> right.value.Meaningful()
    ensures Overlap(left, right) <==> exists o :: CanMeet(left, right, o)
  {
    if Overlap(left, right) {
      var o;
      if left.Some? && right.Some? {
        o := OverlapIsMet(left.value, right.value);
      } else if left.Some? {
        OverlapsItself(left.value);
        o := OverlapIsMet(left.value, left.value);
      } else if right.Some? {
        OverlapsItself(right.value);
        o := OverlapIsMet(right.value, right.value);
      } else {
        o := Sample(Authenticated, None, None, []);
      }
      assert CanMeet(left, right, o);
    } else {
      forall o ensures !CanMeet(left, right, o) {
        NoOverlapIsNotMet(left, right, o);
      }
    }
  }

  /** The test is symmetric. */
  lemma OverlapSymmetric(left: Option<PermissionConditions>, right: Option<PermissionConditions>)
    ensures Overlap(left, right) == Overlap(right, left)
  {
    forall a: Requirement, b: Requirement ensures Conflict(a, b) == Conflict(b, a) {
    }
  }

  /** A collected MATCH means every observation, and at least one, matched; more observations never turn
      an uncertain or failed collection into a match. */
  lemma CollectedMatchMeansAll(expected: Option<PermissionConditions>, observations: seq<Observation>)
    requires expected.Some?
    ensures CollectedStatus(expected, observations) == Match
            <==> observations != [] && forall o | o in observations :: MatchStatus(expected, Some(o)) == Match
  {
    var states := CollectedStates(expected, observations);
    if observations != [] {
      assert MatchStatus(expected, Some(observations[0])) in states;
    }
    forall o | o in observations ensures MatchStatus(expected, Some(o)) in states {
    }
  }
}
