/** Depth-first rejection of cyclic dependency graphs, and the transitive dependencies of one node.

    The same check guards workflow bindings, recorded flow drafts and relationship snapshots. It is
    proved against explicit cycles, and an accepted graph comes with an order of its nodes in which
    every dependency precedes what depends on it.
 */
module Dependencies {
  import opened Order

  type Node = string
  type Graph = map<Node, set<Node>>

  function Next(g: Graph, n: Node): set<Node> {
    if n in g then g[n] else {}
  }

  ghost predicate Walk(g: Graph, p: seq<Node>) {
    p != [] && forall i | 0 < i < |p| :: p[i] in Next(g, p[i - 1])
  }

  ghost predicate Cycle(g: Graph, p: seq<Node>) {
    Walk(g, p) && |p| >= 2 && p[0] == p[|p| - 1]
  }

  ghost predicate Cyclic(g: Graph) {
    exists p :: Cycle(g, p)
  }

  /** m is a dependency of n, directly or through others. */
  ghost predicate DependsOn(g: Graph, n: Node, m: Node) {
    exists p :: Walk(g, p) && |p| >= 2 && p[0] == n && p[|p| - 1] == m
  }

  /** Every dependency of a listed node is listed before it. */
  ghost predicate Respects(g: Graph, order: seq<Node>) {
    && Distinct(order)
    && (forall i, m | 0 <= i < |order| && m in Next(g, order[i]) :: m in order[..i])
  }

  // ---------------------------------------------------------------------------------------------
  // Orders and cycles exclude each other

  /** Along a walk from a listed node the position in the order strictly falls. */
  lemma {:induction false} WalkDescends(g: Graph, order: seq<Node>, p: seq<Node>, i: nat) returns (j: nat)
    requires Respects(g, order) && Walk(g, p)
    requires i < |order| && order[i] == p[0]
    ensures j <= i && order[j] == p[|p| - 1]
    ensures |p| >= 2 ==> j < i
    decreases |p|
  {
    if |p| == 1 {
      j := i;
    } else {
      assert p[1] in Next(g, order[i]);
      var k :| 0 <= k < i && order[..i][k] == p[1];
      j := WalkDescends(g, order, p[1..], k);
    }
  }

  lemma OrderExcludesCycles(g: Graph, order: seq<Node>)
    requires Respects(g, order)
    requires forall n | n in g :: n in order
    ensures !Cyclic(g)
  {
    forall p | Cycle(g, p) ensures false {
      assert p[1] in Next(g, p[0]);
      assert p[0] in order;
      var i :| 0 <= i < |order| && order[i] == p[0];
      var j := WalkDescends(g, order, p, i);
    }
  }

  /** In an order that respects the dependencies, a transitive dependency differs from and precedes its
      dependent. */
  lemma DependencyPrecedes(g: Graph, order: seq<Node>, n: Node, m: Node)
    requires Respects(g, order) && n in order && DependsOn(g, n, m)
    ensures m != n
    ensures exists j, i :: 0 <= j < i < |order| && order[j] == m && order[i] == n
  {
    var p :| Walk(g, p) && |p| >= 2 && p[0] == n && p[|p| - 1] == m;
    var i :| 0 <= i < |order| && order[i] == n;
    var j := WalkDescends(g, order, p, i);
    assert order[j] == m && order[i] == n;
  }

  // ---------------------------------------------------------------------------------------------
  // The depth-first check

  class CycleCheck {
    const graph: Graph
    var visiting: set<Node>
    var visited: set<Node>
    ghost var stack: seq<Node>
    ghost var finished: seq<Node>

    /** The nodes being visited form a chain of dependencies; the finished ones are in order. */
    ghost predicate Valid()
      reads this
    {
      && (stack == [] || Walk(graph, stack))
      && (forall n :: n in visiting <==> n in stack)
      && Respects(graph, finished)
      && (forall n :: n in visited <==> n in finished)
      && visiting !! visited
      && visiting <= graph.Keys
    }

    constructor (graph: Graph)
      ensures Valid() && this.graph == graph && stack == [] && finished == []
    {
      this.graph := graph;
      visiting, visited, stack, finished := {}, {}, [], [];
    }

    /** Visits n and everything it depends on; false means a cycle was met. */
    method Visit(n: Node) returns (ok: bool)
      requires Valid()
      requires stack != [] ==> n in Next(graph, stack[|stack| - 1])
      modifies this`visiting, this`visited, this`stack, this`finished
      ensures !ok ==> Cyclic(graph)
      ensures ok ==> Valid() && stack == old(stack) && visiting == old(visiting) && n in visited
      ensures ok ==> old(visited) <= visited
      decreases graph.Keys - visiting, 1
    {
      if n in visiting {
        CloseCycle(graph, stack, n);
        return false;
      }
      if n in visited {
        return true;
      }
      if n in graph {
        ok := VisitDependencies(n);
      } else {
        FinishOrder(graph, finished, n);
        visited, finished := visited + {n}, finished + [n];
        ok := true;
      }
    }

    method VisitDependencies(n: Node) returns (ok: bool)
      requires Valid() && n in graph && n !in visiting && n !in visited
      requires stack != [] ==> n in Next(graph, stack[|stack| - 1])
      modifies this`visiting, this`visited, this`stack, this`finished
      ensures !ok ==> Cyclic(graph)
      ensures ok ==> Valid() && stack == old(stack) && visiting == old(visiting) && n in visited
      ensures ok ==> old(visited) <= visited
      decreases graph.Keys - visiting, 0
    {
      visiting, stack := visiting + {n}, stack + [n];
      var rest := graph[n];
      while rest != {}
        invariant Valid() && stack == old(stack) + [n] && visiting == old(visiting) + {n}
        invariant rest <= graph[n] && graph[n] - rest <= visited
        invariant old(visited) <= visited
        decreases rest
      {
        var dependency :| dependency in rest;
        ok := Visit(dependency);
        if !ok {
          return;
        }
        rest := rest - {dependency};
      }
      FinishOrder(graph, finished, n);
      visiting, stack := visiting - {n}, old(stack);
      visited, finished := visited + {n}, finished + [n];
      ok := true;
    }
  }

  lemma CloseCycle(g: Graph, stack: seq<Node>, n: Node)
    requires Walk(g, stack) && n in stack && n in Next(g, stack[|stack| - 1])
    ensures Cyclic(g)
  {
    var i :| 0 <= i < |stack| && stack[i] == n;
    assert Cycle(g, stack[i..] + [n]);
  }

  lemma FinishOrder(g: Graph, finished: seq<Node>, n: Node)
    requires Respects(g, finished) && n !in finished
    requires forall m | m in Next(g, n) :: m in finished
    ensures Respects(g, finished + [n])
  {
    var order := finished + [n];
    forall i, m | 0 <= i < |order| && m in Next(g, order[i]) ensures m in order[..i] {
      if i < |finished| {
        assert order[..i] == finished[..i];
      } else {
        assert order[..i] == finished;
      }
    }
  }

  /** The whole check: it accepts exactly the acyclic graphs, and an accepted graph has an order. */
  method RejectCycles(graph: Graph) returns (ok: bool, ghost order: seq<Node>)
    ensures ok <==> !Cyclic(graph)
    ensures ok ==> Respects(graph, order) && forall n | n in graph :: n in order
  {
    var check := new CycleCheck(graph);
    order := [];
    var rest := graph.Keys;
    while rest != {}
      invariant check.graph == graph && check.Valid() && check.stack == []
      invariant rest <= graph.Keys && graph.Keys - rest <= check.visited
      invariant fresh(check)
      decreases rest
    {
      var n :| n in rest;
      ok := check.Visit(n);
      if !ok {
        return;
      }
      rest := rest - {n};
    }
    order := check.finished;
    OrderExcludesCycles(graph, order);
    ok := true;
  }

  // ---------------------------------------------------------------------------------------------
  // Transitive dependencies

  /** A set closed under dependencies that contains a node's direct ones contains all of them. */
  lemma {:induction false} ClosedContains(g: Graph, n: Node, found: set<Node>, p: seq<Node>)
    requires Walk(g, p) && |p| >= 2 && p[0] == n
    requires Next(g, n) <= found && forall m | m in found :: Next(g, m) <= found
    ensures p[|p| - 1] in found
    decreases |p|
  {
    assert p[1] in Next(g, p[0]);
    if |p| > 2 {
      ClosedContains(g, p[1], found, p[1..]);
    }
  }

  lemma ExtendDependency(g: Graph, n: Node, m: Node, k: Node)
    requires DependsOn(g, n, m) && k in Next(g, m)
    ensures DependsOn(g, n, k)
  {
    var p :| Walk(g, p) && |p| >= 2 && p[0] == n && p[|p| - 1] == m;
    var q := p + [k];
    assert Walk(g, q) && |q| >= 2 && q[0] == n && q[|q| - 1] == k;
  }

  lemma DirectDependency(g: Graph, n: Node, k: Node)
    requires k in Next(g, n)
    ensures DependsOn(g, n, k)
  {
    var q := [n, k];
    assert Walk(g, q) && |q| >= 2 && q[0] == n && q[|q| - 1] == k;
  }


  /** The worklist of everything a node depends on: it terminates with exactly that set. */
  method TransitiveDependencies(g: Graph, n: Node) returns (found: set<Node>)
    requires n in g && forall k, m | k in g && m in g[k] :: m in g
    ensures forall m :: m in found <==> DependsOn(g, n, m)
  {
    found := {};
    var pending := Sorted(g[n]);
    forall m | m in pending ensures DependsOn(g, n, m) && m in g {
      DirectDependency(g, n, m);
    }
    while pending != []
      invariant forall m | m in found || m in pending :: DependsOn(g, n, m) && m in g
      invariant forall m | m in g[n] :: m in found || m in pending
      invariant forall m, k | m in found && k in g[m] :: k in found || k in pending
      decreases g.Keys - found, |pending|
    {
      var dependency := pending[|pending| - 1];
      var rest := pending[..|pending| - 1];
      forall m | m in pending ensures m == dependency || m in rest {
      }
      if dependency in found {
        pending := rest;
        continue;
      }
      var more := Sorted(g[dependency]);
      forall m | m in more ensures DependsOn(g, n, m) && m in g {
        ExtendDependency(g, n, dependency, m);
      }
      assert dependency in g.Keys - found;
      found := found + {dependency};
      pending := rest + more;
    }
    forall m | DependsOn(g, n, m) ensures m in found {
      var p :| Walk(g, p) && |p| >= 2 && p[0] == n && p[|p| - 1] == m;
      ClosedContains(g, n, found, p);
    }
  }
}
