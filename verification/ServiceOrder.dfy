/** Start order of the runtime supervisor: depth-first topological sort (veetee_runtime.py). */
module ServiceOrder {

  datatype Spec = Spec(name: string, dependencies: seq<string>)

  // ------------------------------------------------------------------ manifests

  ghost predicate Distinct<T>(s: seq<T>) {
    forall i, j :: 0 <= i < j < |s| ==> s[i] != s[j]
  }

  function NamesOf(specs: seq<Spec>): (names: seq<string>)
    ensures |names| == |specs|
  {
    seq(|specs|, i requires 0 <= i < |specs| => specs[i].name)
  }

  /** What _load guarantees: unique non-empty names, and every dependency is a service. */
  ghost predicate Loadable(specs: seq<Spec>) {
    && (forall i :: 0 <= i < |specs| ==> specs[i].name != "")
    && Distinct(NamesOf(specs))
    && forall i, d :: 0 <= i < |specs| && d in specs[i].dependencies ==> d in NamesOf(specs)
  }

  /** The name and dependency checks of _load. */
  method CheckManifest(specs: seq<Spec>) returns (ok: bool)
    ensures ok <==> Loadable(specs)
  {
    var names: set<string> := {};
    for i := 0 to |specs|
      invariant names == set n | n in NamesOf(specs)[..i]
      invariant forall k :: 0 <= k < i ==> specs[k].name != ""
      invariant Distinct(NamesOf(specs)[..i])
    {
      if specs[i].name == "" || specs[i].name in names {
        if specs[i].name in names {
          var k: nat :| k < i && NamesOf(specs)[k] == specs[i].name;
          assert NamesOf(specs)[k] == NamesOf(specs)[i];
        }
        return false;
      }
      assert NamesOf(specs)[..i + 1] == NamesOf(specs)[..i] + [specs[i].name];
      names := names + {specs[i].name};
    }
    assert NamesOf(specs)[..|specs|] == NamesOf(specs);
    for i := 0 to |specs|
      invariant forall k, d :: 0 <= k < i && d in specs[k].dependencies ==> d in NamesOf(specs)
    {
      var missing := set d | d in specs[i].dependencies && d !in names;
      if missing != {} {
        var d :| d in missing;
        assert d in specs[i].dependencies && d !in NamesOf(specs);
        return false;
      }
      assert forall d :: d in specs[i].dependencies ==> d !in missing;
    }
    return true;
  }

  // --------------------------------------------------------------------- the graph

  type Graph = map<string, seq<string>>

  ghost predicate Closed(g: Graph) {
    forall a, b :: a in g && b in g[a] ==> b in g
  }

  predicate Edge(g: Graph, a: string, b: string) {
    a in g && b in g[a]
  }

  /** Each element depends directly on the next. */
  ghost predicate IsPath(g: Graph, p: seq<string>) {
    forall i :: 0 <= i < |p| - 1 ==> Edge(g, p[i], p[i + 1])
  }

  ghost predicate IsCycle(g: Graph, p: seq<string>) {
    |p| >= 2 && IsPath(g, p) && p[0] == p[|p| - 1]
  }

  ghost predicate Cyclic(g: Graph) {
    exists p :: IsCycle(g, p)
  }

  /** Each service once, and only after everything it depends on. */
  ghost predicate IsOrderOf(g: Graph, order: seq<string>) {
    && Distinct(order) && (set n | n in order) == g.Keys && DependenciesEarlier(g, order)
  }

  ghost predicate DependenciesEarlier(g: Graph, order: seq<string>) {
    forall i, d :: 0 <= i < |order| && order[i] in g && d in g[order[i]] ==> d in order[..i]
  }

  function Position(order: seq<string>, n: string): (i: nat)
    requires n in order
    ensures i < |order| && order[i] == n
  {
    if order[0] == n then 0 else 1 + Position(order[1..], n)
  }

  lemma PositionOf(order: seq<string>, i: nat)
    requires Distinct(order) && i < |order|
    ensures Position(order, order[i]) == i
  {
  }

  lemma EdgeGoesBack(g: Graph, order: seq<string>, a: string, b: string)
    requires IsOrderOf(g, order) && Edge(g, a, b)
    ensures a in order && b in order && Position(order, b) < Position(order, a)
  {
    assert a in g.Keys;
    var i := Position(order, a);
    var j: nat :| j < i && order[j] == b;
    PositionOf(order, j);
  }

  lemma {:induction false} PathGoesBack(g: Graph, order: seq<string>, p: seq<string>)
    requires IsOrderOf(g, order) && IsPath(g, p) && |p| >= 2
    ensures p[0] in order && p[|p| - 1] in order && Position(order, p[|p| - 1]) < Position(order, p[0])
    decreases |p|
  {
    EdgeGoesBack(g, order, p[0], p[1]);
    if |p| > 2 {
      var tail := p[1..];
      forall i | 0 <= i < |tail| - 1
        ensures Edge(g, tail[i], tail[i + 1])
      {
        assert Edge(g, p[i + 1], p[i + 2]);
      }
      PathGoesBack(g, order, tail);
    }
  }

  /** A graph that has an order has no cycle. */
  lemma OrderExcludesCycles(g: Graph, order: seq<string>)
    requires IsOrderOf(g, order)
    ensures !Cyclic(g)
  {
    if p :| IsCycle(g, p) {
      PathGoesBack(g, order, p);
    }
  }

  lemma AppendKeepsEarlier(g: Graph, order: seq<string>, name: string)
    requires DependenciesEarlier(g, order)
    requires name in g && forall d :: d in g[name] ==> d in order
    ensures DependenciesEarlier(g, order + [name])
  {
    var longer := order + [name];
    forall i, d | 0 <= i < |longer| && longer[i] in g && d in g[longer[i]]
      ensures d in longer[..i]
    {
      if i < |order| {
        assert longer[..i] == order[..i];
      } else {
        assert longer[..i] == order;
      }
    }
  }

  // ------------------------------------------------------------------ the algorithm

  class Visitor {
    const graph: Graph
    var visiting: set<string>
    var visited: set<string>
    var ordered: seq<string>
    ghost var stack: seq<string> // the visits in progress, outermost first

    ghost predicate Valid()
      reads this
    {
      && Closed(graph)
      && visited == (set n | n in ordered) && visited <= graph.Keys && Distinct(ordered)
      && DependenciesEarlier(graph, ordered)
      && visiting == (set n | n in stack) && visiting <= graph.Keys && visiting !! visited
      && IsPath(graph, stack)
    }

    constructor (graph: Graph)
      requires Closed(graph)
      ensures Valid() && this.graph == graph && stack == [] && ordered == [] && visiting == {}
    {
      this.graph := graph;
      visiting, visited, ordered, stack := {}, {}, [], [];
    }

    lemma CycleThrough(name: string)
      requires Valid() && name in visiting && stack != [] && Edge(graph, stack[|stack| - 1], name)
      ensures Cyclic(graph)
    {
      var k: nat :| k < |stack| && stack[k] == name;
      var p := stack[k..] + [name];
      forall i | 0 <= i < |p| - 1
        ensures Edge(graph, p[i], p[i + 1])
      {
        if i < |p| - 2 {
          assert Edge(graph, stack[k + i], stack[k + i + 1]);
        }
      }
      assert IsCycle(graph, p);
    }

    /** visit: false stands for the cycle error. */
    method Visit(name: string) returns (ok: bool)
      requires Valid() && name in graph
      requires stack != [] ==> Edge(graph, stack[|stack| - 1], name)
      modifies this
      decreases graph.Keys - visiting, 0
      ensures !ok ==> Cyclic(graph)
      ensures ok ==> Valid() && stack == old(stack) && visiting == old(visiting) && name in visited
      ensures ok ==> old(ordered) <= ordered
    {
      if name in visited {
        return true;
      }
      if name in visiting {
        CycleThrough(name);
        return false;
      }
      Push(name);
      ok := VisitAll(name);
      if !ok {
        return false;
      }
      Finish(name);
    }

    method Push(name: string)
      requires Valid() && name in graph && name !in visiting && name !in visited
      requires stack != [] ==> Edge(graph, stack[|stack| - 1], name)
      modifies this
      ensures Valid() && stack == old(stack) + [name] && visiting == old(visiting) + {name}
      ensures visited == old(visited) && ordered == old(ordered)
    {
      visiting := visiting + {name};
      stack := stack + [name];
    }

    /** The loop over the dependencies of a service. */
    method VisitAll(name: string) returns (ok: bool)
      requires Valid() && stack != [] && stack[|stack| - 1] == name
      modifies this
      decreases graph.Keys - visiting, 1
      ensures !ok ==> Cyclic(graph)
      ensures ok ==> Valid() && stack == old(stack) && visiting == old(visiting)
      ensures ok ==> old(ordered) <= ordered && forall d :: d in graph[name] ==> d in visited
    {
      var dependencies := graph[name];
      for i := 0 to |dependencies|
        invariant Valid() && stack == old(stack) && visiting == old(visiting) && old(ordered) <= ordered
        invariant forall k :: 0 <= k < i ==> dependencies[k] in visited
      {
        ok := Visit(dependencies[i]);
        if !ok {
          return false;
        }
      }
      return true;
    }

    method Finish(name: string)
      requires Valid() && stack != [] && stack[|stack| - 1] == name && name !in stack[..|stack| - 1]
      requires forall d :: d in graph[name] ==> d in visited
      modifies this
      ensures Valid() && stack == old(stack)[..|old(stack)| - 1] && visiting == old(visiting) - {name}
      ensures ordered == old(ordered) + [name] && visited == old(visited) + {name}
    {
      AppendKeepsEarlier(graph, ordered, name);
      visiting := visiting - {name};
      visited := visited + {name};
      ordered := ordered + [name];
      stack := stack[..|stack| - 1];
    }
  }

  /** The by_name dictionary. */
  function GraphOf(specs: seq<Spec>): (g: Graph)
    ensures g.Keys == set n | n in NamesOf(specs)
  {
    if specs == [] then map[]
    else
      var n := |specs| - 1;
      assert NamesOf(specs) == NamesOf(specs[..n]) + [specs[n].name];
      GraphOf(specs[..n])[specs[n].name := specs[n].dependencies]
  }

  lemma {:induction false} GraphLooksUp(specs: seq<Spec>, i: nat)
    requires Distinct(NamesOf(specs)) && i < |specs|
    ensures specs[i].name in GraphOf(specs) && GraphOf(specs)[specs[i].name] == specs[i].dependencies
    decreases |specs|
  {
    var n := |specs| - 1;
    if i < n {
      assert NamesOf(specs)[i] != NamesOf(specs)[n];
      assert NamesOf(specs[..n]) == NamesOf(specs)[..n];
      GraphLooksUp(specs[..n], i);
    }
  }

  lemma LoadableIsClosed(specs: seq<Spec>)
    requires Loadable(specs)
    ensures Closed(GraphOf(specs))
  {
    var g := GraphOf(specs);
    forall a, b | a in g && b in g[a]
      ensures b in g
    {
      assert a in NamesOf(specs);
      var i: nat :| i < |specs| && specs[i].name == a;
      GraphLooksUp(specs, i);
    }
  }

  datatype Order = Ordered(names: seq<string>) | CycleDetected

  /** The outer loop of _order: it raises exactly when the dependencies have a cycle. */
  method StartOrder(specs: seq<Spec>) returns (order: Order)
    requires Loadable(specs)
    ensures order.CycleDetected? <==> Cyclic(GraphOf(specs))
    ensures order.Ordered? ==> IsOrderOf(GraphOf(specs), order.names)
  {
    LoadableIsClosed(specs);
    var visitor := new Visitor(GraphOf(specs));
    for i := 0 to |specs|
      invariant visitor.Valid() && visitor.stack == []
      invariant forall k :: 0 <= k < i ==> specs[k].name in visitor.visited
    {
      GraphLooksUp(specs, i);
      var ok := visitor.Visit(specs[i].name);
      if !ok {
        return CycleDetected;
      }
    }
    forall n | n in GraphOf(specs)
      ensures n in visitor.visited
    {
      assert n in NamesOf(specs);
      var k: nat :| k < |specs| && specs[k].name == n;
    }
    order := Ordered(visitor.ordered);
    OrderExcludesCycles(visitor.graph, visitor.ordered);
  }

  lemma {:induction false} DistinctCount<T>(s: seq<T>)
    requires Distinct(s)
    ensures |set x | x in s| == |s|
  {
    if s != [] {
      var n := |s| - 1;
      DistinctCount(s[..n]);
      assert (set x | x in s) == (set x | x in s[..n]) + {s[n]};
      assert s[n] !in s[..n];
    } else {
      assert (set x | x in s) == {};
    }
  }

  /** An order lists as many services as the manifest, each at one place, with its dependencies strictly before it. */
  lemma OrderIsComplete(specs: seq<Spec>, order: seq<string>, i: nat)
    requires Loadable(specs) && IsOrderOf(GraphOf(specs), order) && i < |specs|
    ensures |order| == |specs| && specs[i].name in order
    ensures forall d :: d in specs[i].dependencies ==>
      d in order && Position(order, d) < Position(order, specs[i].name)
  {
    var g := GraphOf(specs);
    DistinctCount(order);
    DistinctCount(NamesOf(specs));
    GraphLooksUp(specs, i);
    forall d | d in specs[i].dependencies
      ensures d in order && Position(order, d) < Position(order, specs[i].name)
    {
      EdgeGoesBack(g, order, specs[i].name, d);
    }
    assert specs[i].name in g.Keys;
  }
}
