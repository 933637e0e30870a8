/** What the verdicts of a relationship observation mean, in terms of the fields of the requirement, the snapshot and
    its grants, the instants of the uncertainty window, and explicit paths.
 */
module RelationshipMeaning {
  import opened Collections
  import opened Reachability
  import opened Relationships

  // ---------------------------------------------------------------------------------------------
  // Grants

  /** The grant is of the required kind, made by the owner for the resource and, among others, for the action. */
  predicate IsAbout(g: Grant, r: Requirement, s: Snapshot) {
    g.kind == r.kind && g.grantor == s.owner && g.resource == s.resource && s.action in g.actions
  }

  /** It is made to the subject or to a group of the subject. */
  predicate IsMadeTo(g: Grant, s: Snapshot) {
    if g.granteeKind == Group then s.groups.Some? && g.grantee in s.groups.value else g.grantee == s.subject
  }

  predicate Matters(g: Grant, r: Requirement, s: Snapshot) {
    g in s.grants && IsAbout(g, r, s) && IsMadeTo(g, s)
  }

  /** An instant that cannot be told from the observation or the sample, given the uncertainty of the clock. */
  predicate InWindow(s: Snapshot, t: int) {
    && (s.observedAt - s.clockUncertainty <= t || (s.sourceTime.Some? && s.sourceTime.value - s.clockUncertainty <= t))
    && (t <= s.observedAt + s.clockUncertainty || (s.sourceTime.Some? && t <= s.sourceTime.value + s.clockUncertainty))
  }

  predicate HasBegun(g: Grant, t: int) {
    g.validFrom <= t
  }

  predicate IsRevoked(g: Grant, t: int) {
    g.revokedAt.Some? && g.revokedAt.value <= t
  }

  predicate HasEnded(g: Grant, t: int) {
    g.validUntil.Some? && g.validUntil.value <= t
  }

  /** None of this changes inside the window. */
  ghost predicate Steady(g: Grant, s: Snapshot) {
    forall t, u | InWindow(s, t) && InWindow(s, u) ::
      && (HasBegun(g, t) <==> HasBegun(g, u)) && (HasEnded(g, t) <==> HasEnded(g, u))
      && (IsRevoked(g, t) <==> IsRevoked(g, u))
  }

  /** The snapshot is complete, its clocks are at most five seconds and the uncertainty apart, the groups are known
      if a grant is made to one, and no grant that matters changes inside the window. */
  ghost predicate IsCertain(r: Requirement, s: Snapshot) {
    && s.scopeComplete
    && (s.sourceTime.Some? ==>
          s.sourceTime.value - s.observedAt <= 5_000_000 + s.clockUncertainty
          && s.observedAt - s.sourceTime.value <= 5_000_000 + s.clockUncertainty)
    && (forall g | g in s.grants && IsAbout(g, r, s) && g.granteeKind == Group :: s.groups.Some?)
    && (forall g | Matters(g, r, s) :: Steady(g, s))
  }

  predicate IsActive(g: Grant, t: int) {
    HasBegun(g, t) && !HasEnded(g, t) && !IsRevoked(g, t)
  }

  predicate IsExpired(g: Grant, t: int) {
    HasBegun(g, t) && HasEnded(g, t) && !IsRevoked(g, t)
  }

  predicate WasRevoked(g: Grant, t: int) {
    HasBegun(g, t) && IsRevoked(g, t)
  }

  /** Some grant that matters is so throughout the window. */
  ghost predicate OneIs(r: Requirement, s: Snapshot, so: (Grant, int) -> bool) {
    exists g :: Matters(g, r, s) && forall t | InWindow(s, t) :: so(g, t)
  }

  /** Every grant that matters is so throughout the window, or has not begun. */
  ghost predicate AllAre(r: Requirement, s: Snapshot, so: (Grant, int) -> bool) {
    forall g, t | Matters(g, r, s) && InWindow(s, t) && HasBegun(g, t) :: so(g, t)
  }

  lemma AboutExactly(g: Grant, r: Requirement, s: Snapshot)
    ensures g.Concerns(r.kind, s) <==> IsAbout(g, r, s)
    ensures g.Applies(r.kind, s) <==> IsAbout(g, r, s) && IsMadeTo(g, s)
  {
  }

  lemma WindowExactly(s: Snapshot, t: int)
    ensures InWindow(s, t) <==> s.Lower() <= t <= s.Upper()
    ensures InWindow(s, s.Lower()) && InWindow(s, s.Upper())
  {
  }

  lemma SteadyExactly(g: Grant, s: Snapshot)
    ensures Steady(g, s) <==> !g.Crosses(s.Lower(), s.Upper())
  {
    WindowExactly(s, s.Lower());
    if g.Crosses(s.Lower(), s.Upper()) {
      assert InWindow(s, s.Lower()) && InWindow(s, s.Upper());
    }
    forall t ensures InWindow(s, t) <==> s.Lower() <= t <= s.Upper() {
      WindowExactly(s, t);
    }
  }

  lemma CertainExactly(r: Requirement, s: Snapshot)
    ensures IsCertain(r, s) <==> s.scopeComplete && !GrantsUncertain(r.kind, s)
  {
    forall g: Grant
      ensures g.Concerns(r.kind, s) <==> IsAbout(g, r, s)
      ensures g.Applies(r.kind, s) <==> IsAbout(g, r, s) && IsMadeTo(g, s)
      ensures Steady(g, s) <==> !g.Crosses(s.Lower(), s.Upper())
    {
      AboutExactly(g, r, s);
      SteadyExactly(g, s);
    }
    hide Steady;
  }

  /** In a certain observation a grant that matters is the same at every instant of the window. */
  lemma ThroughoutExactly(g: Grant, s: Snapshot, state: RelationState)
    requires Steady(g, s)
    ensures HasBegun(g, s.Lower()) && g.StateAt(s.Lower()) == state
        <==> forall t | InWindow(s, t) :: HasBegun(g, t) && g.StateAt(t) == state
    ensures HasBegun(g, s.Lower()) <==> exists t :: InWindow(s, t) && HasBegun(g, t)
  {
    WindowExactly(s, s.Lower());
  }

  lemma StateExactly(g: Grant, t: int)
    requires HasBegun(g, t)
    ensures g.StateAt(t) == Active <==> IsActive(g, t)
    ensures g.StateAt(t) == Expired <==> IsExpired(g, t)
    ensures g.StateAt(t) == Revoked <==> WasRevoked(g, t)
  {
  }

  ghost function StateOf(state: RelationState): (Grant, int) -> bool {
    match state
    case Active => IsActive
    case Expired => IsExpired
    case Revoked => WasRevoked
    case Absent => (g, t) => !HasBegun(g, t)
  }

  lemma OccursExactly(r: Requirement, s: Snapshot, state: RelationState)
    requires IsCertain(r, s) && state != Absent
    ensures state in GrantStates(r.kind, s, s.Lower()) <==> OneIs(r, s, StateOf(state))
  {
    WindowExactly(s, s.Lower());
    forall g | Matters(g, r, s)
      ensures g.Applies(r.kind, s)
      ensures s.Lower() >= g.validFrom && g.StateAt(s.Lower()) == state
          <==> forall t | InWindow(s, t) :: StateOf(state)(g, t)
    {
      AboutExactly(g, r, s);
      MattersAlways(g, s, state);
    }
    forall g: Grant | g in s.grants && g.Applies(r.kind, s) ensures Matters(g, r, s) {
      AboutExactly(g, r, s);
    }
    hide StateOf, Steady;
  }

  lemma MattersAlways(g: Grant, s: Snapshot, state: RelationState)
    requires Steady(g, s) && state != Absent
    ensures s.Lower() >= g.validFrom && g.StateAt(s.Lower()) == state
        <==> forall t | InWindow(s, t) :: StateOf(state)(g, t)
  {
    ThroughoutExactly(g, s, state);
    forall t | HasBegun(g, t) ensures g.StateAt(t) == state <==> StateOf(state)(g, t) {
      StateExactly(g, t);
    }
  }

  /** No state but this one occurs among the grants that matter. */
  lemma OnlyExactly(r: Requirement, s: Snapshot, state: RelationState)
    requires IsCertain(r, s) && state != Absent
    ensures GrantStates(r.kind, s, s.Lower()) <= {state} <==> AllAre(r, s, StateOf(state))
  {
    if GrantStates(r.kind, s, s.Lower()) <= {state} {
      forall g, t | Matters(g, r, s) && InWindow(s, t) && HasBegun(g, t) ensures StateOf(state)(g, t) {
        AboutExactly(g, r, s);
        ThroughoutExactly(g, s, state);
        assert g.StateAt(s.Lower()) in GrantStates(r.kind, s, s.Lower());
        MattersAlways(g, s, state);
      }
    }
    if AllAre(r, s, StateOf(state)) {
      forall x | x in GrantStates(r.kind, s, s.Lower()) ensures x == state {
        var g :| g in s.grants && g.Applies(r.kind, s) && s.Lower() >= g.validFrom && g.StateAt(s.Lower()) == x;
        AboutExactly(g, r, s);
        WindowExactly(s, s.Lower());
        assert Matters(g, r, s) && StateOf(state)(g, s.Lower());
        StateExactly(g, s.Lower());
      }
    }
  }

  lemma NoneExactly(r: Requirement, s: Snapshot)
    requires IsCertain(r, s)
    ensures GrantStates(r.kind, s, s.Lower()) == {}
        <==> forall g, t | Matters(g, r, s) && InWindow(s, t) :: !HasBegun(g, t)
  {
    WindowExactly(s, s.Lower());
    forall g | Matters(g, r, s)
      ensures g.Applies(r.kind, s) && (HasBegun(g, s.Lower()) <==> exists t :: InWindow(s, t) && HasBegun(g, t))
    {
      AboutExactly(g, r, s);
      ThroughoutExactly(g, s, Active);
    }
    if g :| Matters(g, r, s) && HasBegun(g, s.Lower()) {
      assert g.StateAt(s.Lower()) in GrantStates(r.kind, s, s.Lower());
    }
    if x :| x in GrantStates(r.kind, s, s.Lower()) {
      var g :| g in s.grants && g.Applies(r.kind, s) && s.Lower() >= g.validFrom;
      AboutExactly(g, r, s);
      assert Matters(g, r, s);
    }
  }

  predicate AboutGrants(r: Requirement) {
    r.FiniteShape() && (r.kind == Sharing || r.kind == Delegation)
  }

  lemma GrantVerdict(r: Requirement, s: Snapshot)
    requires AboutGrants(r)
    ensures RelationshipStatus(r, s)
         == if IsCertain(r, s) then Resolve(GrantStates(r.kind, s, s.Lower()), r.state) else Unknown
  {
    CertainExactly(r, s);
  }

  /** An active sharing or delegation is found exactly if the observation is certain and some grant that matters is
      valid, not ended and not revoked at every instant of the window. */
  lemma ActiveGrantExactly(r: Requirement, s: Snapshot)
    requires AboutGrants(r) && r.state == Active
    ensures RelationshipStatus(r, s) == Match <==> IsCertain(r, s) && OneIs(r, s, IsActive)
    ensures RelationshipStatus(r, s) == Unknown
        <==> !IsCertain(r, s) || (OneIs(r, s, IsExpired) && OneIs(r, s, WasRevoked) && !OneIs(r, s, IsActive))
  {
    GrantVerdict(r, s);
    if IsCertain(r, s) {
      StatesOccur(r, s);
    }
  }

  lemma StatesOccur(r: Requirement, s: Snapshot)
    requires IsCertain(r, s)
    ensures var states := GrantStates(r.kind, s, s.Lower());
            && states <= {Active, Expired, Revoked}
            && (Active in states <==> OneIs(r, s, IsActive))
            && (Expired in states <==> OneIs(r, s, IsExpired))
            && (Revoked in states <==> OneIs(r, s, WasRevoked))
  {
    GrantStateValues(r.kind, s, s.Lower());
    OccursExactly(r, s, Active);
    OccursExactly(r, s, Expired);
    OccursExactly(r, s, Revoked);
    assert StateOf(Active) == IsActive && StateOf(Expired) == IsExpired && StateOf(Revoked) == WasRevoked;
  }

  /** The absence of one is found exactly if the observation is certain and no grant that matters has begun at any
      instant of the window. */
  lemma AbsentGrantExactly(r: Requirement, s: Snapshot)
    requires AboutGrants(r) && r.state == Absent
    ensures RelationshipStatus(r, s) == Match
        <==> IsCertain(r, s) && forall g, t | Matters(g, r, s) && InWindow(s, t) :: !HasBegun(g, t)
  {
    GrantVerdict(r, s);
    if IsCertain(r, s) {
      NoneExactly(r, s);
      GrantStateValues(r.kind, s, s.Lower());
      var states := GrantStates(r.kind, s, s.Lower());
      assert states != {} ==> Active in states || Expired in states || Revoked in states;
    }
  }

  /** An expired or revoked one is found exactly if the observation is certain, some grant that matters is so, and
      all others are so or have not begun. */
  lemma EndedGrantExactly(r: Requirement, s: Snapshot)
    requires AboutGrants(r) && (r.state == Expired || r.state == Revoked)
    ensures var so := if r.state == Expired then IsExpired else WasRevoked;
            RelationshipStatus(r, s) == Match <==> IsCertain(r, s) && OneIs(r, s, so) && AllAre(r, s, so)
  {
    GrantVerdict(r, s);
    if IsCertain(r, s) {
      StatesOccur(r, s);
      OnlyExactly(r, s, r.state);
      assert StateOf(Expired) == IsExpired && StateOf(Revoked) == WasRevoked;
    }
  }

  /** The path of an active grant names who made it and who has it, through the group if it was made to one. */
  lemma ActivePathNamesGrant(r: Requirement, s: Snapshot, path: seq<Node>) returns (g: Grant)
    requires AboutGrants(r) && r.state == Active && RelationshipStatus(r, s) == Match && Explains(r, s, path)
    ensures Matters(g, r, s) && forall t | InWindow(s, t) :: IsActive(g, t)
    ensures path == if g.granteeKind == Group then [s.owner, g.grantee, s.subject] else [s.owner, s.subject]
  {
    ActiveGrantExactly(r, s);
    g := CountedGrant(r, s, path);
    AboutExactly(g, r, s);
    MattersAlways(g, s, Active);
    assert StateOf(Active) == IsActive;
  }

  lemma CountedGrant(r: Requirement, s: Snapshot, path: seq<Node>) returns (g: Grant)
    requires AboutGrants(r) && r.state == Active && IsCertain(r, s) && OneIs(r, s, IsActive) && Explains(r, s, path)
    ensures g in s.grants && Counts(r, s, g) && path == GrantPath(s, g)
  {
    var h :| Matters(h, r, s) && forall t | InWindow(s, t) :: IsActive(h, t);
    AboutExactly(h, r, s);
    WindowExactly(s, s.Lower());
    StateExactly(h, s.Lower());
    assert Counts(r, s, h);
    var k :| 0 <= k < |s.grants| && s.grants[k] == h;
    var i :| 0 <= i < |s.grants| && Counts(r, s, s.grants[i]) && path == GrantPath(s, s.grants[i]);
    g := s.grants[i];
  }

  // ---------------------------------------------------------------------------------------------
  // Organisations and roles

  /** A path of at most depth steps from one of the starts to the target. */
  ghost predicate IsNear(edges: seq<Edge>, starts: set<Node>, target: Node, depth: nat) {
    exists path :: IsPath(edges, starts, path) && Last(path) == target && |path| <= depth + 1
  }

  /** Whatever can be reached is near, so that a search to this depth has seen everything. */
  ghost predicate AllNear(edges: seq<Edge>, starts: set<Node>, depth: nat) {
    forall path | IsPath(edges, starts, path) :: IsNear(edges, starts, Last(path), depth)
  }

  lemma NearExactly(edges: seq<Edge>, starts: set<Node>, n: Node, depth: nat)
    ensures n in Within(edges, starts, depth) <==> IsNear(edges, starts, n, depth)
  {
    if n in Within(edges, starts, depth) {
      var path := WithinHasPath(edges, starts, depth, n);
    }
    if path :| IsPath(edges, starts, path) && Last(path) == n && |path| <= depth + 1 {
      PathWithin(edges, starts, path);
      WithinGrows(edges, starts, |path| - 1, depth);
    }
  }

  lemma AllNearExactly(edges: seq<Edge>, starts: set<Node>, depth: nat)
    ensures Within(edges, starts, depth + 1) == Within(edges, starts, depth) <==> AllNear(edges, starts, depth)
  {
    if Within(edges, starts, depth + 1) == Within(edges, starts, depth) {
      forall path | IsPath(edges, starts, path) ensures IsNear(edges, starts, Last(path), depth) {
        PathWithin(edges, starts, path);
        if |path| - 1 <= depth {
          WithinGrows(edges, starts, |path| - 1, depth);
        } else {
          WithinStable(edges, starts, depth, |path| - 1);
        }
        NearExactly(edges, starts, Last(path), depth);
      }
    } else {
      WithinGrows(edges, starts, depth, depth + 1);
      var n :| n in Within(edges, starts, depth + 1) && n !in Within(edges, starts, depth);
      var path := WithinHasPath(edges, starts, depth + 1, n);
      NearExactly(edges, starts, n, depth);
    }
  }

  lemma SearchExactly(edges: seq<Edge>, starts: set<Node>, target: Node, depth: nat)
    ensures SearchOutcome(edges, starts, target, depth)
         == if IsNear(edges, starts, target, depth) then Found
            else if AllNear(edges, starts, depth) then Unreachable else Undecided
  {
    NearExactly(edges, starts, target, depth);
    AllNearExactly(edges, starts, depth);
  }

  /** The verdict of a search: near means active; otherwise absent if everything has been seen, or unknown. */
  predicate Says(status: Status, near: bool, seen: bool, want: RelationState) {
    if near then status == (if want == Active then Match else Mismatch)
    else if seen then status == (if want == Absent then Match else Mismatch)
    else status == Unknown
  }

  /** A role is inherited if a path of inheritance leads to it from one of the subject's roles. */
  lemma RoleExactly(r: Requirement, s: Snapshot)
    requires r.FiniteShape() && r.kind == RoleInheritance && s.scopeComplete
    ensures var roles := set role | role in s.roles;
            Says(RelationshipStatus(r, s), IsNear(s.roleInheritance, roles, r.inheritedRole.value, r.maxDepth),
                 AllNear(s.roleInheritance, roles, r.maxDepth), r.state)
  {
    var roles := set role | role in s.roles;
    assert roles == Elements(s.roles);
    SearchExactly(s.roleInheritance, roles, r.inheritedRole.value, r.maxDepth);
  }

  /** The organisation of the resource is one of the subject's, above one of them, or below one of them. */
  lemma OrganizationExactly(r: Requirement, s: Snapshot)
    requires r.FiniteShape() && r.kind == Organization && s.scopeComplete && s.resourceOrganization.Some?
    ensures var own, its := (set o | o in s.organizations), s.resourceOrganization.value;
            var status, parents := RelationshipStatus(r, s), s.organizationParents;
            match r.scope
            case Same => Says(status, its in s.organizations, true, r.state)
            case ResourceAncestor =>
              Says(status, IsNear(parents, own, its, r.maxDepth), AllNear(parents, own, r.maxDepth), r.state)
            case SubjectAncestor =>
              Says(status, exists o | o in own :: IsNear(parents, {its}, o, r.maxDepth),
                   own == {} || AllNear(parents, {its}, r.maxDepth), r.state)
  {
    var own, its := (set o | o in s.organizations), s.resourceOrganization.value;
    assert own == Elements(s.organizations);
    match r.scope
    case Same =>
    case ResourceAncestor => SearchExactly(s.organizationParents, own, its, r.maxDepth);
    case SubjectAncestor => AncestorExactly(s, own, its, r.maxDepth);
  }

  lemma AncestorExactly(s: Snapshot, own: set<Node>, its: Node, depth: nat)
    requires s.resourceOrganization == Some(its) && own == (set o | o in s.organizations)
    ensures SubjectAncestorOutcome(s, depth)
         == if exists o | o in own :: IsNear(s.organizationParents, {its}, o, depth) then Found
            else if own == {} || AllNear(s.organizationParents, {its}, depth) then Unreachable else Undecided
  {
    forall o ensures UpwardOutcome(s, o, depth)
                  == if IsNear(s.organizationParents, {its}, o, depth) then Found
                     else if AllNear(s.organizationParents, {its}, depth) then Unreachable else Undecided
    {
      SearchExactly(s.organizationParents, {its}, o, depth);
    }
    hide SearchOutcome, IsNear, AllNear;
    forall o ensures o in own <==> o in s.organizations {
    }
    if own != {} {
      var o :| o in own;
      assert UpwardOutcome(s, o, depth) != Unreachable || AllNear(s.organizationParents, {its}, depth);
    }
  }

  /** Without the organisation of the resource, or with an incomplete snapshot, nothing is decided. */
  lemma IncompleteIsUnknown(r: Requirement, s: Snapshot)
    requires r.FiniteShape()
    requires !s.scopeComplete || (r.kind == Organization && s.resourceOrganization.None?)
    ensures RelationshipStatus(r, s) == Unknown
  {
  }
}
