/** Reachability along the child-to-parent edges of an organisation or role graph, and the
    depth-bounded breadth-first search over it.

    `Within` is the reference definition: the nodes reached by at most k edges. The search is proved
    against it, and it is tied to explicit paths by PathWithin and WithinHasPath.
 */
module Reachability {
  import opened Collections
  import opened Order

  type Node = string

  datatype Edge = Edge(child: Node, parent: Node)

  function Parents(edges: seq<Edge>, n: Node): set<Node> {
    set e | e in edges && e.child == n :: e.parent
  }

  function ParentsOf(edges: seq<Edge>, s: set<Node>): set<Node> {
    set e | e in edges && e.child in s :: e.parent
  }

  /** The nodes reached from a start by at most k edges. */
  function Within(edges: seq<Edge>, starts: set<Node>, k: nat): set<Node> {
    if k == 0 then starts
    else Grown(edges, Within(edges, starts, k - 1))
  }

  function Grown(edges: seq<Edge>, nodes: set<Node>): set<Node> {
    nodes + ParentsOf(edges, nodes)
  }

  ghost predicate IsPath(edges: seq<Edge>, starts: set<Node>, path: seq<Node>) {
    && path != []
    && path[0] in starts
    && (forall i | 0 < i < |path| :: path[i] in Parents(edges, path[i - 1]))
  }

  function Last(path: seq<Node>): Node
    requires path != []
  {
    path[|path| - 1]
  }

  /** A path from the starts to the target than which none is shorter. */
  ghost predicate Shortest(edges: seq<Edge>, starts: set<Node>, target: Node, path: seq<Node>) {
    && IsPath(edges, starts, path) && Last(path) == target
    && (forall other | IsPath(edges, starts, other) && Last(other) == target :: |path| <= |other|)
  }

  /** Reachable at any depth, by an explicit path. */
  ghost predicate Reachable(edges: seq<Edge>, starts: set<Node>, target: Node) {
    exists path :: IsPath(edges, starts, path) && Last(path) == target
  }

  lemma {:induction false} WithinGrows(edges: seq<Edge>, starts: set<Node>, j: nat, k: nat)
    requires j <= k
    ensures Within(edges, starts, j) <= Within(edges, starts, k)
    decreases k
  {
    if j < k {
      WithinGrows(edges, starts, j, k - 1);
    }
  }

  /** Once a layer adds nothing, no later layer does. */
  lemma {:induction false} WithinStable(edges: seq<Edge>, starts: set<Node>, j: nat, k: nat)
    requires j <= k
    requires Within(edges, starts, j + 1) == Within(edges, starts, j)
    ensures Within(edges, starts, k) == Within(edges, starts, j)
    decreases k
  {
    if j < k {
      WithinStable(edges, starts, j, k - 1);
      WithinUnfolds(edges, starts, j + 1);
      WithinUnfolds(edges, starts, k);
    }
  }

  lemma WithinUnfolds(edges: seq<Edge>, starts: set<Node>, k: nat)
    requires k > 0
    ensures Within(edges, starts, k) == Grown(edges, Within(edges, starts, k - 1))
  {
  }

  lemma {:induction false} PathWithin(edges: seq<Edge>, starts: set<Node>, path: seq<Node>)
    requires IsPath(edges, starts, path)
    ensures Last(path) in Within(edges, starts, |path| - 1)
  {
    if |path| > 1 {
      var init := path[..|path| - 1];
      PathWithin(edges, starts, init);
      assert Last(path) in Parents(edges, Last(init));
      var e :| e in edges && e.child == Last(init) && e.parent == Last(path);
    }
  }

  lemma {:induction false} WithinHasPath(edges: seq<Edge>, starts: set<Node>, k: nat, n: Node) returns (path: seq<Node>)
    requires n in Within(edges, starts, k)
    ensures IsPath(edges, starts, path) && Last(path) == n && |path| - 1 <= k
  {
    if k == 0 {
      path := [n];
    } else if n in Within(edges, starts, k - 1) {
      path := WithinHasPath(edges, starts, k - 1, n);
    } else {
      var e :| e in edges && e.child in Within(edges, starts, k - 1) && e.parent == n;
      var init := WithinHasPath(edges, starts, k - 1, e.child);
      path := init + [n];
    }
  }

  // ---------------------------------------------------------------------------------------------
  // The bounded search

  datatype Search = Found | Unreachable | Undecided

  /** What a search bounded by `depth` can say about a target. */
  function SearchOutcome(edges: seq<Edge>, starts: set<Node>, target: Node, depth: nat): Search {
    if target in Within(edges, starts, depth) then Found
    else if Within(edges, starts, depth + 1) == Within(edges, starts, depth) then Unreachable
    else Undecided
  }

  /** The trichotomy is exact: found means a path of at most `depth` edges exists; unreachable means
      there is no path of any length. */
  lemma SearchOutcomeExact(edges: seq<Edge>, starts: set<Node>, target: Node, depth: nat)
    ensures SearchOutcome(edges, starts, target, depth) == Found
            <==> exists path :: IsPath(edges, starts, path) && Last(path) == target && |path| - 1 <= depth
    ensures SearchOutcome(edges, starts, target, depth) == Unreachable ==> !Reachable(edges, starts, target)
  {
    var outcome := SearchOutcome(edges, starts, target, depth);
    if outcome == Found {
      var path := WithinHasPath(edges, starts, depth, target);
    }
    forall path | IsPath(edges, starts, path) && Last(path) == target
      ensures |path| - 1 <= depth ==> outcome == Found
      ensures outcome != Unreachable
    {
      PathOutcome(edges, starts, target, depth, path);
    }
  }

  lemma PathIsFound(edges: seq<Edge>, starts: set<Node>, target: Node, depth: nat, path: seq<Node>)
    requires IsPath(edges, starts, path) && Last(path) == target && |path| - 1 <= depth
    ensures SearchOutcome(edges, starts, target, depth) == Found
  {
    PathWithin(edges, starts, path);
    WithinGrows(edges, starts, |path| - 1, depth);
  }

  lemma PathOutcome(edges: seq<Edge>, starts: set<Node>, target: Node, depth: nat, path: seq<Node>)
    requires IsPath(edges, starts, path) && Last(path) == target
    ensures |path| - 1 <= depth ==> SearchOutcome(edges, starts, target, depth) == Found
    ensures SearchOutcome(edges, starts, target, depth) != Unreachable
  {
    if |path| - 1 <= depth {
      PathIsFound(edges, starts, target, depth, path);
    } else if SearchOutcome(edges, starts, target, depth) == Unreachable {
      PathWithin(edges, starts, path);
      WithinStable(edges, starts, depth, |path| - 1);
    }
  }

  /** A decided outcome is the same at every greater depth. */
  lemma DecidedOutcomeIsStable(edges: seq<Edge>, starts: set<Node>, target: Node, depth: nat, deeper: nat)
    requires depth <= deeper
    requires SearchOutcome(edges, starts, target, depth) != Undecided
    ensures SearchOutcome(edges, starts, target, deeper) == SearchOutcome(edges, starts, target, depth)
  {
    WithinGrows(edges, starts, depth, deeper);
    if SearchOutcome(edges, starts, target, depth) == Unreachable {
      WithinStable(edges, starts, depth, deeper);
      WithinStable(edges, starts, depth, deeper + 1);
    }
  }

  /** Every search becomes decided at some depth: as long as a layer adds nothing new or, failing that,
      the graph runs out of nodes. */
  lemma {:induction false} EventuallyDecided(edges: seq<Edge>, starts: set<Node>, target: Node)
    ensures exists depth: nat :: SearchOutcome(edges, starts, target, depth) != Undecided
  {
    var depth := 0;
    var all := starts + ParentsOf(edges, set e | e in edges :: e.child);
    while Within(edges, starts, depth + 1) != Within(edges, starts, depth)
      invariant Within(edges, starts, depth) <= all
      decreases all - Within(edges, starts, depth)
    {
      NextLayerInUniverse(edges, starts, depth, all);
      depth := depth + 1;
    }
    assert SearchOutcome(edges, starts, target, depth) != Undecided;
  }

  lemma NextLayerInUniverse(edges: seq<Edge>, starts: set<Node>, depth: nat, all: set<Node>)
    requires all == starts + ParentsOf(edges, set e | e in edges :: e.child)
    requires Within(edges, starts, depth) <= all
    ensures Within(edges, starts, depth + 1) <= all
  {
    forall n | n in ParentsOf(edges, Within(edges, starts, depth)) ensures n in all {
      var e :| e in edges && e.child in Within(edges, starts, depth) && e.parent == n;
    }
  }

  // ---------------------------------------------------------------------------------------------
  // The search itself

  /** The nodes at distance exactly d from the starts. */
  function Layer(edges: seq<Edge>, starts: set<Node>, d: nat): set<Node> {
    if d == 0 then starts else Within(edges, starts, d) - Within(edges, starts, d - 1)
  }

  lemma LayerStep(edges: seq<Edge>, starts: set<Node>, d: nat)
    ensures Within(edges, starts, d + 1) == Within(edges, starts, d) + ParentsOf(edges, Layer(edges, starts, d))
  {
    if d > 0 {
      assert ParentsOf(edges, Within(edges, starts, d))
          == ParentsOf(edges, Within(edges, starts, d - 1)) + ParentsOf(edges, Layer(edges, starts, d)) by {
        forall n | n in ParentsOf(edges, Within(edges, starts, d))
          ensures n in ParentsOf(edges, Within(edges, starts, d - 1)) + ParentsOf(edges, Layer(edges, starts, d)) {
          var e :| e in edges && e.child in Within(edges, starts, d) && e.parent == n;
        }
      }
    }
  }

  ghost function Lasts(paths: seq<seq<Node>>): set<Node>
    requires forall p | p in paths :: p != []
  {
    set p | p in paths :: Last(p)
  }

  /** Where the search stands: the first `a` queued paths end in layer d, the rest in layer d + 1, and
      `done` is the part of layer d already expanded. */
  ghost predicate Queue(edges: seq<Edge>, starts: set<Node>, pending: seq<seq<Node>>, d: nat, a: nat) {
    && a <= |pending|
    && (forall i | 0 <= i < |pending| ::
          IsPath(edges, starts, pending[i]) && |pending[i]| == if i < a then d + 1 else d + 2)
  }

  ghost predicate Frontier(edges: seq<Edge>, starts: set<Node>, maxDepth: nat, pending: seq<seq<Node>>,
                           seen: set<Node>, d: nat, a: nat, done: set<Node>)
    requires Queue(edges, starts, pending, d, a)
  {
    && d <= maxDepth
    && Layer(edges, starts, d) == done + Lasts(pending[..a])
    && (if d < maxDepth
        then Lasts(pending[a..]) == ParentsOf(edges, done) - Within(edges, starts, d)
             && seen == Within(edges, starts, d) + ParentsOf(edges, done)
        else a == |pending| && seen == Within(edges, starts, d))
  }

  lemma WithinIsLayers(edges: seq<Edge>, starts: set<Node>, d: nat)
    ensures Within(edges, starts, d) == Layer(edges, starts, d) + if d == 0 then {} else Within(edges, starts, d - 1)
  {
  }

  /** When the current layer is used up the queue holds exactly the next one. */
  lemma NextFrontier(edges: seq<Edge>, starts: set<Node>, maxDepth: nat, pending: seq<seq<Node>>,
                     seen: set<Node>, d: nat, done: set<Node>)
    requires Queue(edges, starts, pending, d, 0) && pending != []
    requires Frontier(edges, starts, maxDepth, pending, seen, d, 0, done)
    ensures Queue(edges, starts, pending, d + 1, |pending|)
    ensures Frontier(edges, starts, maxDepth, pending, seen, d + 1, |pending|, {})
  {
    LayerStep(edges, starts, d);
    assert pending[0..] == pending == pending[..|pending|];
    assert pending[|pending|..] == [];
    assert pending[..0] == [];
    assert Lasts(pending[..0]) == {};
    assert Layer(edges, starts, d) == done;
    assert ParentsOf(edges, {}) == {};
  }

  lemma ParentsOfAdd(edges: seq<Edge>, s: set<Node>, n: Node)
    ensures ParentsOf(edges, s + {n}) == ParentsOf(edges, s) + Parents(edges, n)
  {
    forall p | p in ParentsOf(edges, s) + Parents(edges, n) ensures p in ParentsOf(edges, s + {n}) {
      var e :| e in edges && (e.child in s || e.child == n) && e.parent == p;
    }
  }

  function AllParents(edges: seq<Edge>): set<Node> {
    set e | e in edges :: e.parent
  }

  lemma ExpandShrinks(edges: seq<Edge>, n: Node, seen: set<Node>, unseen: set<Node>, parents: seq<Node>)
    requires unseen == AllParents(edges) - seen
    requires forall p :: p in parents <==> p in Parents(edges, n) - seen
    ensures unseen - Elements(parents) == AllParents(edges) - (seen + Elements(parents))
    ensures if parents == [] then unseen - Elements(parents) == unseen else unseen - Elements(parents) < unseen
  {
    if parents != [] {
      assert parents[0] in parents && parents[0] in unseen && parents[0] in Elements(parents);
    }
  }

  function Extensions(path: seq<Node>, parents: seq<Node>): (r: seq<seq<Node>>)
    ensures |r| == |parents|
  {
    seq(|parents|, i requires 0 <= i < |parents| => path + [parents[i]])
  }

  lemma LastsOfExtensions(path: seq<Node>, parents: seq<Node>)
    ensures forall p | p in Extensions(path, parents) :: p != []
    ensures Lasts(Extensions(path, parents)) == Elements(parents)
  {
    var r := Extensions(path, parents);
    forall n | n in parents ensures n in Lasts(r) {
      var i :| 0 <= i < |parents| && parents[i] == n;
      assert r[i] in r && Last(r[i]) == n;
    }
    forall p | p in r ensures p != [] && Last(p) in parents {
      var i :| 0 <= i < |r| && r[i] == p;
    }
  }

  lemma LastsOfConcat(p: seq<seq<Node>>, q: seq<seq<Node>>)
    requires forall x | x in p + q :: x != []
    ensures forall x | x in p :: x in p + q
    ensures forall x | x in q :: x in p + q
    ensures Lasts(p + q) == Lasts(p) + Lasts(q)
  {
    forall x | x in p ensures x in p + q {
    }
  }

  lemma ExpandQueue(edges: seq<Edge>, starts: set<Node>, pending: seq<seq<Node>>, d: nat, a: nat, parents: seq<Node>)
    requires Queue(edges, starts, pending, d, a) && 0 < a
    requires forall n | n in parents :: n in Parents(edges, Last(pending[0]))
    ensures Queue(edges, starts, pending[1..] + Extensions(pending[0], parents), d, a - 1)
  {
    var next := pending[1..] + Extensions(pending[0], parents);
    forall i | 0 <= i < |next|
      ensures IsPath(edges, starts, next[i]) && |next[i]| == if i < a - 1 then d + 1 else d + 2
    {
      if i < |pending| - 1 {
        assert next[i] == pending[i + 1];
      } else {
        var parent := parents[i - (|pending| - 1)];
        assert parent in parents;
        assert next[i] == pending[0] + [parent];
      }
    }
  }

  /** Expanding one queued path below the depth bound. */
  lemma Expand(edges: seq<Edge>, starts: set<Node>, maxDepth: nat, pending: seq<seq<Node>>,
               seen: set<Node>, d: nat, a: nat, done: set<Node>, parents: seq<Node>)
    requires Queue(edges, starts, pending, d, a) && 0 < a && d < maxDepth
    requires Frontier(edges, starts, maxDepth, pending, seen, d, a, done)
    requires forall n :: n in parents <==> n in Parents(edges, Last(pending[0])) - seen
    ensures var next := pending[1..] + Extensions(pending[0], parents);
            && Queue(edges, starts, next, d, a - 1)
            && Frontier(edges, starts, maxDepth, next, seen + Elements(parents), d, a - 1, done + {Last(pending[0])})
  {
    var n := Last(pending[0]);
    var added := Extensions(pending[0], parents);
    var next := pending[1..] + added;
    ExpandQueue(edges, starts, pending, d, a, parents);
    ParentsOfAdd(edges, done, n);
    SplitLasts(pending, a);
    LastsOfExtensions(pending[0], parents);
    assert next[..a - 1] == pending[1..a];
    assert next[a - 1..] == pending[a..] + added;
    LastsOfConcat(pending[a..], added);
  }

  lemma SplitLasts(pending: seq<seq<Node>>, a: nat)
    requires 0 < a <= |pending|
    requires forall i | 0 <= i < |pending| :: pending[i] != []
    ensures forall p | p in pending[..a] :: p != []
    ensures forall p | p in pending[1..a] :: p != []
    ensures Lasts(pending[..a]) == {Last(pending[0])} + Lasts(pending[1..a])
  {
    assert pending[..a] == [pending[0]] + pending[1..a];
    assert Lasts([pending[0]]) == {Last(pending[0])};
    LastsOfConcat([pending[0]], pending[1..a]);
  }

  /** Passing over one queued path at the depth bound. */
  lemma PassOver(edges: seq<Edge>, starts: set<Node>, maxDepth: nat, pending: seq<seq<Node>>,
                 seen: set<Node>, d: nat, a: nat, done: set<Node>)
    requires Queue(edges, starts, pending, d, a) && 0 < a && d == maxDepth
    requires Frontier(edges, starts, maxDepth, pending, seen, d, a, done)
    ensures Queue(edges, starts, pending[1..], d, a - 1)
    ensures Frontier(edges, starts, maxDepth, pending[1..], seen, d, a - 1, done + {Last(pending[0])})
  {
    assert pending[1..][..a - 1] == pending[1..a];
    SplitLasts(pending, a);
  }

  /** The loop invariant of the search: its frontier, and what the expanded part has shown so far. */
  ghost predicate Searching(edges: seq<Edge>, starts: set<Node>, target: Node, maxDepth: nat, pending: seq<seq<Node>>,
                            seen: set<Node>, exhausted: bool, d: nat, a: nat, done: set<Node>)
  {
    && Queue(edges, starts, pending, d, a)
    && Frontier(edges, starts, maxDepth, pending, seen, d, a, done)
    && target !in done
    && (d > 0 ==> target !in Within(edges, starts, d - 1))
    && (exhausted <==> d == maxDepth && !(ParentsOf(edges, done) <= Within(edges, starts, d)))
  }

  lemma ShiftSearch(edges: seq<Edge>, starts: set<Node>, target: Node, maxDepth: nat, pending: seq<seq<Node>>,
                    seen: set<Node>, exhausted: bool, d: nat, done: set<Node>)
    requires Searching(edges, starts, target, maxDepth, pending, seen, exhausted, d, 0, done) && pending != []
    ensures Searching(edges, starts, target, maxDepth, pending, seen, exhausted, d + 1, |pending|, {})
  {
    NextFrontier(edges, starts, maxDepth, pending, seen, d, done);
    WithinIsLayers(edges, starts, d);
    assert pending[..0] == [] && Lasts(pending[..0]) == {};
    assert ParentsOf(edges, {}) == {};
  }

  lemma ExpandSearch(edges: seq<Edge>, starts: set<Node>, target: Node, maxDepth: nat, pending: seq<seq<Node>>,
                     seen: set<Node>, exhausted: bool, d: nat, a: nat, done: set<Node>, parents: seq<Node>)
    requires Searching(edges, starts, target, maxDepth, pending, seen, exhausted, d, a, done)
    requires 0 < a && d < maxDepth && Last(pending[0]) != target
    requires forall n :: n in parents <==> n in Parents(edges, Last(pending[0])) - seen
    ensures Searching(edges, starts, target, maxDepth, pending[1..] + Extensions(pending[0], parents),
                      seen + Elements(parents), exhausted, d, a - 1, done + {Last(pending[0])})
  {
    Expand(edges, starts, maxDepth, pending, seen, d, a, done, parents);
  }

  lemma PassSearch(edges: seq<Edge>, starts: set<Node>, target: Node, maxDepth: nat, pending: seq<seq<Node>>,
                   seen: set<Node>, exhausted: bool, d: nat, a: nat, done: set<Node>, parents: seq<Node>)
    requires Searching(edges, starts, target, maxDepth, pending, seen, exhausted, d, a, done)
    requires 0 < a && d == maxDepth && Last(pending[0]) != target
    requires forall n :: n in parents <==> n in Parents(edges, Last(pending[0])) - seen
    ensures Searching(edges, starts, target, maxDepth, pending[1..],
                      seen, exhausted || parents != [], d, a - 1, done + {Last(pending[0])})
  {
    var n := Last(pending[0]);
    PassOver(edges, starts, maxDepth, pending, seen, d, a, done);
    ParentsOfAdd(edges, done, n);
    assert parents == [] <==> Parents(edges, n) <= Within(edges, starts, d) by {
      forall p | p in Parents(edges, n) ensures p in seen || p in parents {
        assert p !in seen ==> p in Parents(edges, n) - seen;
      }
      assert parents != [] ==> parents[0] in parents;
    }
  }

  lemma FoundSearch(edges: seq<Edge>, starts: set<Node>, target: Node, maxDepth: nat, pending: seq<seq<Node>>,
                    seen: set<Node>, exhausted: bool, d: nat, a: nat, done: set<Node>)
    requires Searching(edges, starts, target, maxDepth, pending, seen, exhausted, d, a, done)
    requires 0 < a && Last(pending[0]) == target
    ensures SearchOutcome(edges, starts, target, maxDepth) == Found
    ensures forall other | IsPath(edges, starts, other) && Last(other) == target :: |pending[0]| <= |other|
  {
    ShortestAt(edges, starts, pending[0], target, d);
    assert pending[0] in pending[..a];
    WithinIsLayers(edges, starts, d);
    WithinGrows(edges, starts, d, maxDepth);
  }

  /** What the drained queue says. */
  lemma DrainedSearch(edges: seq<Edge>, starts: set<Node>, target: Node, maxDepth: nat, pending: seq<seq<Node>>,
                      seen: set<Node>, exhausted: bool, d: nat, a: nat, done: set<Node>)
    requires Searching(edges, starts, target, maxDepth, pending, seen, exhausted, d, a, done) && pending == []
    ensures SearchOutcome(edges, starts, target, maxDepth) == if exhausted then Undecided else Unreachable
  {
    assert pending[..a] == [] && pending[a..] == [];
    assert Lasts(pending[..a]) == {} && Lasts(pending[a..]) == {};
    LayerStep(edges, starts, d);
    WithinIsLayers(edges, starts, d);
    if d < maxDepth {
      WithinStable(edges, starts, d, maxDepth);
      WithinStable(edges, starts, d, maxDepth + 1);
    }
  }

  /** The adjacency the search builds from the edge list before it starts. */
  method Adjacency(edges: seq<Edge>) returns (graph: map<Node, set<Node>>)
    ensures forall n :: (if n in graph then graph[n] else {}) == Parents(edges, n)
  {
    graph := map[];
    for i := 0 to |edges|
      invariant forall n :: (if n in graph then graph[n] else {}) == Parents(edges[..i], n)
    {
      var edge := edges[i];
      var known := if edge.child in graph then graph[edge.child] else {};
      assert edges[..i + 1] == edges[..i] + [edge];
      assert forall n ::
          Parents(edges[..i + 1], n) == Parents(edges[..i], n) + if n == edge.child then {edge.parent} else {};
      graph := graph[edge.child := known + {edge.parent}];
    }
    assert edges[..|edges|] == edges;
  }

  /** Bounded breadth-first search over a queue of paths. A found path is real, within the bound and
      shortest; without one, `exhausted` says exactly whether the bound was what stopped the search. */
  method FindPath(edges: seq<Edge>, starts: set<Node>, target: Node, maxDepth: nat)
    returns (path: seq<Node>, exhausted: bool)
    ensures path != [] <==> SearchOutcome(edges, starts, target, maxDepth) == Found
    ensures path != [] ==> Shortest(edges, starts, target, path) && |path| <= maxDepth + 1
    ensures path == [] ==> (exhausted <==> SearchOutcome(edges, starts, target, maxDepth) == Undecided)
  {
    var graph := Adjacency(edges);
    var first := Sorted(starts);
    var pending: seq<seq<Node>> := seq(|first|, i requires 0 <= i < |first| => [first[i]]);
    var seen := starts;
    exhausted := false;
    ghost var d: nat, a: nat, done: set<Node> := 0, |pending|, {};
    InitialFrontier(edges, starts, maxDepth, first);
    assert ParentsOf(edges, {}) == {};
    ghost var unseen := AllParents(edges) - starts;
    while pending != []
      invariant Searching(edges, starts, target, maxDepth, pending, seen, exhausted, d, a, done)
      invariant unseen == AllParents(edges) - seen
      decreases unseen, |pending|
    {
      if a == 0 {
        ShiftSearch(edges, starts, target, maxDepth, pending, seen, exhausted, d, done);
        d, a, done := d + 1, |pending|, {};
      }
      path := pending[0];
      var n := Last(path);
      if n == target {
        FoundSearch(edges, starts, target, maxDepth, pending, seen, exhausted, d, a, done);
        return;
      }
      var parents := Sorted((if n in graph then graph[n] else {}) - seen);
      if |path| - 1 == maxDepth {
        PassSearch(edges, starts, target, maxDepth, pending, seen, exhausted, d, a, done, parents);
        exhausted := exhausted || parents != [];
        pending := pending[1..];
      } else {
        ExpandSearch(edges, starts, target, maxDepth, pending, seen, exhausted, d, a, done, parents);
        ExpandShrinks(edges, n, seen, unseen, parents);
        pending := pending[1..] + Extensions(path, parents);
        seen := seen + Elements(parents);
        unseen := unseen - Elements(parents);
      }
      a, done := a - 1, done + {n};
    }
    DrainedSearch(edges, starts, target, maxDepth, pending, seen, exhausted, d, a, done);
    path := [];
  }

  lemma InitialFrontier(edges: seq<Edge>, starts: set<Node>, maxDepth: nat, first: seq<Node>)
    requires SortedListing(first, starts)
    ensures var pending: seq<seq<Node>> := seq(|first|, i requires 0 <= i < |first| => [first[i]]);
            && Queue(edges, starts, pending, 0, |pending|)
            && Frontier(edges, starts, maxDepth, pending, starts, 0, |pending|, {})
  {
    var pending: seq<seq<Node>> := seq(|first|, i requires 0 <= i < |first| => [first[i]]);
    assert pending[..|pending|] == pending && pending[|pending|..] == [];
    assert ParentsOf(edges, {}) == {};
    assert Lasts(pending) == starts by {
      forall n | n in starts ensures n in Lasts(pending) {
        var i :| 0 <= i < |first| && first[i] == n;
        assert pending[i] in pending && Last(pending[i]) == n;
      }
    }
  }

  lemma ShortestAt(edges: seq<Edge>, starts: set<Node>, path: seq<Node>, target: Node, d: nat)
    requires |path| == d + 1
    requires d > 0 ==> target !in Within(edges, starts, d - 1)
    ensures forall other | IsPath(edges, starts, other) && Last(other) == target :: |path| <= |other|
  {
    forall other | IsPath(edges, starts, other) && Last(other) == target ensures |path| <= |other| {
      PathWithin(edges, starts, other);
      if |other| < |path| {
        WithinGrows(edges, starts, |other| - 1, d - 1);
      }
    }
  }
}
