/** Relationship observations: deciding, from one private snapshot of an application's organisations,
    roles and grants, whether a required relationship holds, does not hold, or cannot be told.
 */
module Relationships {
  import opened Collections
  import opened Order
  import opened Reachability
  import Dependencies

  datatype Kind = Organization | RoleInheritance | Sharing | Delegation
  datatype RelationState = Active | Absent | Expired | Revoked
  datatype Scope = Same | SubjectAncestor | ResourceAncestor
  datatype Status = Match | Mismatch | Unknown

  datatype Requirement = Requirement(kind: Kind, state: RelationState, scope: Scope,
                                     inheritedRole: Option<Node>, maxDepth: nat)
  {
    /** The shape every accepted requirement has. */
    predicate FiniteShape() {
      && 1 <= maxDepth <= 8
      && (kind != Organization ==> scope == Same)
      && (kind == RoleInheritance <==> inheritedRole.Some?)
      && (kind.Organization? || kind.RoleInheritance? ==> state.Active? || state.Absent?)
      && (kind.Sharing? || kind.Delegation? ==> maxDepth == 1)
    }
  }

  datatype GranteeKind = Subject | Group

  datatype Grant = Grant(kind: Kind, grantor: Node, grantee: Node, granteeKind: GranteeKind, resource: Node,
                         actions: seq<Node>, validFrom: nat, validUntil: Option<nat>, revokedAt: Option<nat>)
  {
    /** The grant is about the observed owner, resource and action, whoever it was given to. */
    predicate Concerns(kind: Kind, s: Snapshot) {
      this.kind == kind && grantor == s.owner && resource == s.resource && s.action in actions
    }

    predicate GivenTo(s: Snapshot) {
      match granteeKind
      case Group => s.groups.Some? && grantee in s.groups.value
      case Subject => grantee == s.subject
    }

    predicate NeedsGroups(kind: Kind, s: Snapshot) {
      Concerns(kind, s) && granteeKind == Group && s.groups.None?
    }

    predicate Applies(kind: Kind, s: Snapshot) {
      Concerns(kind, s) && GivenTo(s)
    }

    /** A start, end or revocation falls after `lower` and no later than `upper`. */
    predicate Crosses(lower: int, upper: int) {
      || lower < validFrom <= upper
      || (validUntil.Some? && lower < validUntil.value <= upper)
      || (revokedAt.Some? && lower < revokedAt.value <= upper)
    }

    function StateAt(t: int): RelationState {
      if revokedAt.Some? && t >= revokedAt.value then Revoked
      else if validUntil.Some? && t >= validUntil.value then Expired
      else Active
    }
  }

  datatype Snapshot = Snapshot(
    subject: Node, owner: Node, resource: Node, action: Node,
    observedAt: nat, clockUncertainty: nat, sourceTime: Option<nat>, scopeComplete: bool,
    organizations: seq<Node>, groups: Option<seq<Node>>, resourceOrganization: Option<Node>,
    organizationParents: seq<Edge>, roles: seq<Node>, roleInheritance: seq<Edge>, grants: seq<Grant>)
  {
    function SampledAt(): int {
      if sourceTime.None? then observedAt else sourceTime.value
    }

    function Lower(): int {
      (if SampledAt() <= observedAt then SampledAt() else observedAt) - clockUncertainty
    }

    function Upper(): int {
      (if SampledAt() <= observedAt then observedAt else SampledAt()) + clockUncertainty
    }

    predicate ClocksApart() {
      var distance := SampledAt() - observedAt;
      (if distance < 0 then -distance else distance) > 5_000_000 + clockUncertainty
    }
  }

  datatype Observed = Observed(requirement: Requirement, status: Status, path: seq<Node>)

  // ---------------------------------------------------------------------------------------------
  // Acceptance of a snapshot's graphs

  function EdgeGraph(edges: seq<Edge>): Dependencies.Graph {
    map e | e in edges :: e.child := Parents(edges, e.child)
  }

  lemma EdgeGraphKeys(edges: seq<Edge>, edge: Edge)
    ensures forall n :: n in EdgeGraph(edges + [edge]) <==> n in EdgeGraph(edges) || n == edge.child
  {
    var more := edges + [edge];
    forall n ensures n in EdgeGraph(more) <==> n in EdgeGraph(edges) || n == edge.child {
      if n in EdgeGraph(edges) {
        var e :| e in edges && e.child == n;
        assert e in more;
      }
      assert edge in more;
    }
  }

  lemma ParentsAdd(edges: seq<Edge>, edge: Edge, n: Node)
    ensures Parents(edges + [edge], n) == Parents(edges, n) + if n == edge.child then {edge.parent} else {}
  {
  }

  lemma KnownParents(edges: seq<Edge>, edge: Edge)
    ensures var known := if edge.child in EdgeGraph(edges) then EdgeGraph(edges)[edge.child] else {};
            known == Parents(edges, edge.child) && (edge.parent in known <==> edge in edges)
  {
    assert forall e | e in edges :: e.child in EdgeGraph(edges);
    if edge in edges {
      assert edge.parent in Parents(edges, edge.child);
    }
  }

  lemma EdgeGraphAdd(edges: seq<Edge>, edge: Edge)
    ensures var known := if edge.child in EdgeGraph(edges) then EdgeGraph(edges)[edge.child] else {};
            && (edge.parent in known <==> edge in edges)
            && EdgeGraph(edges + [edge]) == EdgeGraph(edges)[edge.child := known + {edge.parent}]
  {
    var more, g := edges + [edge], EdgeGraph(edges);
    var known := if edge.child in g then g[edge.child] else {};
    EdgeGraphKeys(edges, edge);
    KnownParents(edges, edge);
    forall n ensures Parents(more, n) == Parents(edges, n) + if n == edge.child then {edge.parent} else {} {
      ParentsAdd(edges, edge, n);
    }
    var expected := g[edge.child := known + {edge.parent}];
    assert EdgeGraph(more).Keys == expected.Keys;
    forall n | n in expected ensures EdgeGraph(more)[n] == expected[n] {
      assert EdgeGraph(more)[n] == Parents(more, n);
      assert n != edge.child ==> g[n] == Parents(edges, n);
    }
  }

  lemma RepeatedEdge(edges: seq<Edge>, i: nat)
    requires i < |edges| && edges[i] in edges[..i]
    ensures !Distinct(edges)
  {
    var j :| 0 <= j < i && edges[..i][j] == edges[i];
    assert edges[j] == edges[i];
  }

  /** Accepts an edge list exactly when no edge is repeated and the edges form no cycle. */
  method AcceptGraph(edges: seq<Edge>) returns (ok: bool)
    ensures ok <==> Distinct(edges) && !Dependencies.Cyclic(EdgeGraph(edges))
  {
    var graph;
    ok, graph := BuildGraph(edges);
    if ok {
      ghost var order;
      ok, order := Dependencies.RejectCycles(graph);
    }
  }

  method BuildGraph(edges: seq<Edge>) returns (ok: bool, graph: Dependencies.Graph)
    ensures ok <==> Distinct(edges)
    ensures ok ==> graph == EdgeGraph(edges)
  {
    graph := map[];
    assert Distinct(edges[..0]) && EdgeGraph(edges[..0]) == map[];
    hide Distinct, EdgeGraph;
    for i := 0 to |edges|
      invariant Distinct(edges[..i])
      invariant graph == EdgeGraph(edges[..i])
    {
      var edge := edges[i];
      var known := if edge.child in graph then graph[edge.child] else {};
      EdgeGraphAdd(edges[..i], edge);
      assert edges[..i + 1] == edges[..i] + [edge];
      if edge.parent in known {
        RepeatedEdge(edges, i);
        return false, graph;
      }
      DistinctStep(edges, i);
      graph := graph[edge.child := known + {edge.parent}];
    }
    assert edges[..|edges|] == edges;
    ok := true;
  }

  lemma DistinctStep(edges: seq<Edge>, i: nat)
    requires i < |edges| && Distinct(edges[..i]) && edges[i] !in edges[..i]
    ensures Distinct(edges[..i + 1])
  {
    assert forall k | 0 <= k < i :: edges[..i][k] == edges[k];
  }

  // ---------------------------------------------------------------------------------------------
  // Reference meaning

  function FromSearch(outcome: Search, want: RelationState): Status {
    match outcome
    case Undecided => Unknown
    case Found => if want == Active then Match else Mismatch
    case Unreachable => if want == Absent then Match else Mismatch
  }

  function UpwardOutcome(s: Snapshot, organization: Node, maxDepth: nat): Search
    requires s.resourceOrganization.Some?
  {
    SearchOutcome(s.organizationParents, {s.resourceOrganization.value}, organization, maxDepth)
  }

  /** The best outcome of searching upwards from the resource's organisation for any of the subject's. */
  ghost function SubjectAncestorOutcome(s: Snapshot, maxDepth: nat): Search
    requires s.resourceOrganization.Some?
  {
    if exists organization | organization in s.organizations ::
        UpwardOutcome(s, organization, maxDepth) == Found then Found
    else if exists organization | organization in s.organizations ::
        UpwardOutcome(s, organization, maxDepth) == Undecided
    then Undecided
    else Unreachable
  }

  /** The states the applicable grants are in at instant t; a grant not yet valid is in none. */
  function GrantStates(kind: Kind, s: Snapshot, t: int): set<RelationState> {
    set g | g in s.grants && g.Applies(kind, s) && t >= g.validFrom :: g.StateAt(t)
  }

  /** The verdict on a set of grant states: one active grant outweighs old records, and without one
      contradictory records leave the question open. */
  function Resolve(states: set<RelationState>, want: RelationState): Status {
    if Active in states then (if want == Active then Match else Mismatch)
    else if states == {} then (if want == Absent then Match else Mismatch)
    else if states == {Revoked, Expired} then Unknown
    else if want in states then Match
    else Mismatch
  }

  ghost predicate GrantsUncertain(kind: Kind, s: Snapshot) {
    || s.ClocksApart()
    || (exists g | g in s.grants :: g.NeedsGroups(kind, s))
    || (exists g | g in s.grants :: g.Applies(kind, s) && g.Crosses(s.Lower(), s.Upper()))
  }

  ghost function GrantStatus(kind: Kind, s: Snapshot, want: RelationState): Status {
    if GrantsUncertain(kind, s) then Unknown
    else Resolve(GrantStates(kind, s, s.Lower()), want)
  }

  /** What an observation of requirement r in snapshot s must report. */
  ghost function RelationshipStatus(r: Requirement, s: Snapshot): Status
    requires r.FiniteShape()
  {
    if !s.scopeComplete then Unknown
    else match r.kind
      case Organization =>
        if s.resourceOrganization.None? then Unknown
        else (match r.scope
          case Same =>
            FromSearch(if s.resourceOrganization.value in s.organizations then Found else Unreachable, r.state)
          case ResourceAncestor =>
            FromSearch(SearchOutcome(s.organizationParents, Elements(s.organizations),
                                     s.resourceOrganization.value, r.maxDepth), r.state)
          case SubjectAncestor =>
            FromSearch(SubjectAncestorOutcome(s, r.maxDepth), r.state))
      case RoleInheritance =>
        FromSearch(SearchOutcome(s.roleInheritance, Elements(s.roles), r.inheritedRole.value, r.maxDepth), r.state)
      case _ => GrantStatus(r.kind, s, r.state)
  }

  // ---------------------------------------------------------------------------------------------
  // Observation

  /** The grant counts for the wanted state. */
  predicate Counts(r: Requirement, s: Snapshot, g: Grant) {
    g.Applies(r.kind, s) && s.Lower() >= g.validFrom && g.StateAt(s.Lower()) == r.state
  }

  /** From the grantor to the subject, through the group the grant is made to. */
  function GrantPath(s: Snapshot, g: Grant): seq<Node> {
    if g.granteeKind == Group then [g.grantor, g.grantee, s.subject] else [g.grantor, g.grantee]
  }

  /** The path is that of the last of the first n grants that counts; there is none if none does. */
  ghost predicate NamesGrant(r: Requirement, s: Snapshot, n: nat, path: seq<Node>)
    requires n <= |s.grants|
  {
    || (path == [] && forall k | 0 <= k < n :: !Counts(r, s, s.grants[k]))
    || exists i | 0 <= i < n ::
         && Counts(r, s, s.grants[i]) && path == GrantPath(s, s.grants[i])
         && forall k | i < k < n :: !Counts(r, s, s.grants[k])
  }

  /** A shortest path up from the resource's organisation to the first of the subject's organisations that can be
      reached. */
  ghost predicate NamesSubjectOrganization(s: Snapshot, maxDepth: nat, path: seq<Node>)
    requires s.resourceOrganization.Some?
  {
    exists i | 0 <= i < |s.organizations| ::
      && Shortest(s.organizationParents, {s.resourceOrganization.value}, s.organizations[i], path)
      && forall k | 0 <= k < i :: UpwardOutcome(s, s.organizations[k], maxDepth) != Found
  }

  /** What a match reports: how the subject comes by an active relationship, or the grant in the wanted state. */
  ghost predicate Explains(r: Requirement, s: Snapshot, path: seq<Node>)
    requires r.FiniteShape()
  {
    match r.kind
    case Organization =>
      && s.resourceOrganization.Some?
      && if r.state != Active then path == []
         else |path| <= r.maxDepth + 1
              && (match r.scope
                  case Same => path == [s.resourceOrganization.value] && path[0] in s.organizations
                  case ResourceAncestor =>
                    Shortest(s.organizationParents, Elements(s.organizations), s.resourceOrganization.value, path)
                  case SubjectAncestor => NamesSubjectOrganization(s, r.maxDepth, path))
    case RoleInheritance =>
      if r.state != Active then path == []
      else |path| <= r.maxDepth + 1 && Shortest(s.roleInheritance, Elements(s.roles), r.inheritedRole.value, path)
    case _ => NamesGrant(r, s, |s.grants|, path)
  }

  /** The search upwards from the resource's organisation, one of the subject's organisations at a time. */
  method SearchSubjectOrganizations(s: Snapshot, maxDepth: nat) returns (path: seq<Node>, exhausted: bool)
    requires s.resourceOrganization.Some?
    ensures path != [] <==> SubjectAncestorOutcome(s, maxDepth) == Found
    ensures path == [] ==> (exhausted <==> SubjectAncestorOutcome(s, maxDepth) == Undecided)
    ensures path != [] ==> NamesSubjectOrganization(s, maxDepth, path)
    ensures |path| <= maxDepth + 1
  {
    path, exhausted := [], false;
    var start := {s.resourceOrganization.value};
    for i := 0 to |s.organizations|
      invariant path == []
      invariant forall k | 0 <= k < i :: UpwardOutcome(s, s.organizations[k], maxDepth) != Found
      invariant exhausted <==> exists k | 0 <= k < i ::
                  UpwardOutcome(s, s.organizations[k], maxDepth) == Undecided
    {
      var found, beyond := FindPath(s.organizationParents, start, s.organizations[i], maxDepth);
      exhausted := exhausted || beyond;
      if found != [] {
        path := found;
        assert s.organizations[i] in s.organizations;
        return;
      }
    }
    forall organization | organization in s.organizations
      ensures UpwardOutcome(s, organization, maxDepth) != Found
      ensures UpwardOutcome(s, organization, maxDepth) == Undecided ==> exhausted
    {
      var k :| 0 <= k < |s.organizations| && s.organizations[k] == organization;
    }
    if exhausted {
      var k :| 0 <= k < |s.organizations| && UpwardOutcome(s, s.organizations[k], maxDepth) == Undecided;
      assert s.organizations[k] in s.organizations;
    }
  }

  lemma NamesGrantStep(r: Requirement, s: Snapshot, i: nat, path: seq<Node>)
    requires i < |s.grants| && NamesGrant(r, s, i, path)
    ensures NamesGrant(r, s, i + 1, if Counts(r, s, s.grants[i]) then GrantPath(s, s.grants[i]) else path)
  {
  }

  /** Goes through the grants once, collecting the states of those that apply. */
  method CollectGrantStates(r: Requirement, s: Snapshot)
    returns (uncertain: bool, states: set<RelationState>, path: seq<Node>)
    ensures uncertain <==> GrantsUncertain(r.kind, s)
    ensures !uncertain ==> states == GrantStates(r.kind, s, s.Lower()) && NamesGrant(r, s, |s.grants|, path)
    ensures |path| <= 3
  {
    uncertain, states, path := s.ClocksApart(), {}, [];
    if uncertain {
      return;
    }
    var lower, upper := s.Lower(), s.Upper();
    assert NamesGrant(r, s, 0, []);
    hide NamesGrant;
    for i := 0 to |s.grants|
      invariant forall k | 0 <= k < i ::
                  !s.grants[k].NeedsGroups(r.kind, s)
                  && !(s.grants[k].Applies(r.kind, s) && s.grants[k].Crosses(lower, upper))
      invariant forall x :: x in states <==> exists k | 0 <= k < i ::
                  s.grants[k].Applies(r.kind, s) && lower >= s.grants[k].validFrom && s.grants[k].StateAt(lower) == x
      invariant |path| <= 3 && NamesGrant(r, s, i, path)
    {
      var grant := s.grants[i];
      NamesGrantStep(r, s, i, path);
      if !grant.Concerns(r.kind, s) {
        continue;
      }
      if grant.granteeKind == Group {
        if s.groups.None? {
          assert grant in s.grants && grant.NeedsGroups(r.kind, s);
          uncertain := true;
          return;
        }
        if grant.grantee !in s.groups.value {
          continue;
        }
      } else if grant.grantee != s.subject {
        continue;
      }
      if grant.Crosses(lower, upper) {
        uncertain := true;
        return;
      }
      if lower < grant.validFrom {
        continue;
      }
      var state := grant.StateAt(lower);
      states := states + {state};
      if state == r.state {
        path := GrantPath(s, grant);
      }
    }
  }

  /** One observation. The status is the reference meaning, and the reported path always fits the
      nine entries an observation may carry. */
  method Observe(r: Requirement, s: Snapshot) returns (o: Observed)
    requires r.FiniteShape()
    ensures o.requirement == r
    ensures o.status == RelationshipStatus(r, s)
    ensures o.status == Match ==> Explains(r, s, o.path)
    ensures |o.path| <= 9 && (o.status != Match ==> o.path == [])
  {
    if !s.scopeComplete {
      return Observed(r, Unknown, []);
    }
    var path: seq<Node>, exhausted, states: set<RelationState> := [], false, {};
    if r.kind == Organization {
      if s.resourceOrganization.None? {
        return Observed(r, Unknown, []);
      }
      if r.scope == Same {
        if s.resourceOrganization.value in s.organizations {
          path := [s.resourceOrganization.value];
        }
      } else if r.scope == ResourceAncestor {
        path, exhausted := FindPath(s.organizationParents, Elements(s.organizations),
                                    s.resourceOrganization.value, r.maxDepth);
      } else {
        path, exhausted := SearchSubjectOrganizations(s, r.maxDepth);
      }
      states := {if path != [] then Active else Absent};
    } else if r.kind == RoleInheritance {
      path, exhausted := FindPath(s.roleInheritance, Elements(s.roles), r.inheritedRole.value, r.maxDepth);
      states := {if path != [] then Active else Absent};
    } else {
      var uncertain;
      uncertain, states, path := CollectGrantStates(r, s);
      if uncertain {
        return Observed(r, Unknown, []);
      }
      GrantStateValues(r.kind, s, s.Lower());
      if states == {} {
        states := {Absent};
      }
      if Active in states && r.state in {Revoked, Expired, Absent} {
        states := {Active};
      } else if Active !in states && |states| > 1 {
        SeveralStates(states);
        return Observed(r, Unknown, []);
      } else if Active !in states {
        OneState(states);
      }
    }
    if exhausted && path == [] {
      return Observed(r, Unknown, []);
    }
    var matched := r.state in states;
    return Observed(r, if matched then Match else Mismatch, if matched then path else []);
  }

  lemma GrantStateValues(kind: Kind, s: Snapshot, t: int)
    ensures GrantStates(kind, s, t) <= {Active, Expired, Revoked}
  {
  }

  lemma SeveralStates(states: set<RelationState>)
    requires |states| > 1 && Active !in states && (states <= {Active, Expired, Revoked} || states == {Absent})
    ensures states == {Revoked, Expired}
  {
    assert |{Absent}| == 1;
    var pair := {Expired, Revoked};
    assert |pair| == 2;
    if states != pair {
      assert states < pair;
      StrictSubsetIsSmaller(states, pair);
    }
  }

  lemma StrictSubsetIsSmaller<T>(a: set<T>, b: set<T>)
    requires a < b
    ensures |a| < |b|
  {
    var x :| x in b && x !in a;
    assert |b - {x}| == |b| - 1;
    SubsetSize(a, b - {x});
  }

  lemma OneState(states: set<RelationState>)
    requires |states| <= 1 && states != {}
    ensures states != {Revoked, Expired}
  {
    assert |{Revoked, Expired}| == 2;
  }

  // ---------------------------------------------------------------------------------------------
  // Properties of the verdicts

  /** A grant untouched inside the window is in one state throughout it. */
  lemma GrantSteady(g: Grant, lower: int, upper: int, t: int)
    requires lower <= t <= upper && !g.Crosses(lower, upper)
    ensures t >= g.validFrom <==> lower >= g.validFrom
    ensures g.StateAt(t) == g.StateAt(lower)
  {
  }

  /** A decided sharing or delegation status is right at every instant of the uncertainty window. */
  lemma GrantStatusHoldsThroughout(kind: Kind, s: Snapshot, want: RelationState, t: int)
    requires GrantStatus(kind, s, want) != Unknown
    requires s.Lower() <= t <= s.Upper()
    ensures GrantStates(kind, s, t) == GrantStates(kind, s, s.Lower())
    ensures Resolve(GrantStates(kind, s, t), want) == GrantStatus(kind, s, want)
  {
    forall g | g in s.grants && g.Applies(kind, s)
      ensures t >= g.validFrom <==> s.Lower() >= g.validFrom
      ensures g.StateAt(t) == g.StateAt(s.Lower())
    {
      GrantSteady(g, s.Lower(), s.Upper(), t);
    }
  }

  /** The order in which a source lists its grants does not matter. */
  lemma GrantOrderIrrelevant(kind: Kind, s: Snapshot, other: Snapshot, want: RelationState)
    requires other == s.(grants := other.grants)
    requires multiset(other.grants) == multiset(s.grants)
    ensures GrantStatus(kind, other, want) == GrantStatus(kind, s, want)
  {
    SameElements(other.grants, s.grants);
    GrantStatusFromElements(kind, s, other, want);
  }

  lemma GrantStatusFromElements(kind: Kind, s: Snapshot, other: Snapshot, want: RelationState)
    requires other == s.(grants := other.grants)
    requires Elements(s.grants) == Elements(other.grants)
    ensures GrantStatus(kind, other, want) == GrantStatus(kind, s, want)
  {
    assert s == other.(grants := s.grants);
    GrantStatesFromElements(kind, s, other, s.Lower());
    GrantStatesFromElements(kind, other, s, s.Lower());
    GrantsUncertainFromElements(kind, s, other);
    GrantsUncertainFromElements(kind, other, s);
    var states := GrantStates(kind, s, s.Lower());
    assert GrantStates(kind, other, other.Lower()) == states;
    if !GrantsUncertain(kind, s) {
      assert GrantStatus(kind, other, want) == Resolve(states, want);
    }
  }

  lemma GrantStatesFromElements(kind: Kind, s: Snapshot, other: Snapshot, t: int)
    requires other == s.(grants := other.grants)
    requires Elements(s.grants) <= Elements(other.grants)
    ensures GrantStates(kind, s, t) <= GrantStates(kind, other, t)
  {
    forall x | x in GrantStates(kind, s, t) ensures x in GrantStates(kind, other, t) {
      var g :| g in s.grants && g.Applies(kind, s) && t >= g.validFrom && g.StateAt(t) == x;
      assert g in Elements(other.grants) && g.Applies(kind, other);
    }
  }

  lemma GrantsUncertainFromElements(kind: Kind, s: Snapshot, other: Snapshot)
    requires other == s.(grants := other.grants)
    requires Elements(s.grants) <= Elements(other.grants)
    ensures GrantsUncertain(kind, s) ==> GrantsUncertain(kind, other)
  {
    forall g | g in s.grants
      ensures g in other.grants && g.NeedsGroups(kind, other) == g.NeedsGroups(kind, s)
      ensures g.Applies(kind, other) == g.Applies(kind, s)
    {
      assert g in Elements(other.grants);
    }
  }

  lemma SameElements<T>(a: seq<T>, b: seq<T>)
    requires multiset(a) == multiset(b)
    ensures Elements(a) == Elements(b)
  {
    forall x ensures x in a <==> x in b {
      assert x in a <==> x in multiset(a);
      assert x in b <==> x in multiset(b);
    }
  }

  lemma SubjectAncestorStable(s: Snapshot, depth: nat, deeper: nat)
    requires s.resourceOrganization.Some? && depth <= deeper
    requires SubjectAncestorOutcome(s, depth) != Undecided
    ensures SubjectAncestorOutcome(s, deeper) == SubjectAncestorOutcome(s, depth)
  {
    forall organization | organization in s.organizations && UpwardOutcome(s, organization, depth) != Undecided
      ensures UpwardOutcome(s, organization, deeper) == UpwardOutcome(s, organization, depth)
    {
      DecidedOutcomeIsStable(s.organizationParents, {s.resourceOrganization.value}, organization, depth, deeper);
    }
  }

  /** A decided organisation or role status does not change when the depth bound is raised. */
  lemma DecidedStatusIgnoresDepth(r: Requirement, s: Snapshot, deeper: nat)
    requires r.FiniteShape() && r.(maxDepth := deeper).FiniteShape() && r.maxDepth <= deeper
    requires RelationshipStatus(r, s) != Unknown
    ensures RelationshipStatus(r.(maxDepth := deeper), s) == RelationshipStatus(r, s)
  {
    if r.kind == Organization {
      if r.scope == ResourceAncestor {
        DecidedOutcomeIsStable(s.organizationParents, Elements(s.organizations),
                               s.resourceOrganization.value, r.maxDepth, deeper);
      } else if r.scope == SubjectAncestor {
        SubjectAncestorStable(s, r.maxDepth, deeper);
      }
    } else if r.kind == RoleInheritance {
      DecidedOutcomeIsStable(s.roleInheritance, Elements(s.roles), r.inheritedRole.value, r.maxDepth, deeper);
    }
  }

  /** Requirements that differ only in the state they ask for cannot both be met by one snapshot. */
  lemma StatesExclude(r: Requirement, s: Snapshot, other: RelationState)
    requires r.FiniteShape() && r.(state := other).FiniteShape() && other != r.state
    ensures !(RelationshipStatus(r, s) == Match && RelationshipStatus(r.(state := other), s) == Match)
  {
    GrantStateValues(r.kind, s, s.Lower());
    if r.kind.Sharing? || r.kind.Delegation? {
      var states := GrantStates(r.kind, s, s.Lower());
      if Active !in states && r.state in states && other in states {
        assert states == {Revoked, Expired};
      }
    }
  }
}
