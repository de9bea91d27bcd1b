/**
  The roadmap checker (tools/project_roadmap.py): route edges and the recursive
  depth-first search that reports cycles.
 */
module Roadmap {
  import opened Common

  datatype Scope = Scope(version: string, feature: string, step: string)

  /** A route, its next actions flattened to steps; None when next_actions is not an object. */
  datatype Route = Route(scope: Scope, nextSteps: Option<seq<string>>)

  datatype Issue = DuplicateScope(scope: Scope) | NoRoute(origin: Scope, step: string) | Cycle(at: Scope)

  type Graph = map<Scope, seq<Scope>>

  // ----- steps

  predicate Digit(c: char) { '0' <= c <= '9' }

  /** A step Fdd-Sdd names its feature Fdd. */
  function FeatureOf(step: string): Option<string> {
    if |step| == 7 && step[0] == 'F' && Digit(step[1]) && Digit(step[2]) && step[3] == '-' && step[4] == 'S'
       && Digit(step[5]) && Digit(step[6])
    then Some(step[..3]) else None
  }

  /** Exactly the steps Fdd-Sdd name a feature, and it is their first three characters. */
  lemma StepNamesFeature(step: string, feature: string)
    ensures FeatureOf(step) == Some(feature) <==>
              && |feature| == 3 && feature[0] == 'F' && Digit(feature[1]) && Digit(feature[2])
              && exists a, b :: Digit(a) && Digit(b) && step == feature + ['-', 'S', a, b]
  {
    if FeatureOf(step) == Some(feature) {
      assert step == feature + ['-', 'S', step[5], step[6]];
    }
    if |feature| == 3 && exists a, b :: Digit(a) && Digit(b) && step == feature + ['-', 'S', a, b] {
      assert step[..3] == feature;
    }
  }

  function TargetOf(origin: Scope, step: string): Option<Scope> {
    match FeatureOf(step)
    case None => None
    case Some(feature) => Some(Scope(origin.version, feature, step))
  }

  /** A next step leads to the scope of the same version with that step and its feature. */
  lemma TargetIs(origin: Scope, step: string, target: Scope)
    ensures TargetOf(origin, step) == Some(target) <==>
              target.version == origin.version && target.step == step && FeatureOf(step) == Some(target.feature)
  {
  }

  // ----- graphs

  predicate Closed(g: Graph) { forall k, t :: k in g && t in g[k] ==> t in g }

  predicate IsPath(g: Graph, p: seq<Scope>) {
    && (forall i :: 0 <= i < |p| ==> p[i] in g)
    && (forall i :: 0 < i < |p| ==> p[i] in g[p[i - 1]])
  }

  predicate IsCycle(g: Graph, p: seq<Scope>) { |p| >= 2 && p[0] == p[|p| - 1] && IsPath(g, p) }

  ghost predicate HasCycle(g: Graph) { exists p :: IsCycle(g, p) }

  /** Every scope comes after all its targets. */
  predicate Ordered(g: Graph, order: seq<Scope>) {
    && (forall i :: 0 <= i < |order| ==> order[i] in g)
    && (forall i, t :: 0 <= i < |order| && t in g[order[i]] ==> t in order[..i])
  }

  function First(order: seq<Scope>, k: Scope): (i: nat)
    requires k in order
    ensures i < |order| && order[i] == k && k !in order[..i]
  {
    if order[0] == k then 0 else 1 + First(order[1..], k)
  }

  lemma {:induction false} FirstIsFirst(order: seq<Scope>, k: Scope, j: nat)
    requires j < |order| && order[j] == k
    ensures First(order, k) <= j
  {
    if order[0] != k { FirstIsFirst(order[1..], k, j - 1); }
  }

  lemma EdgeGoesBack(g: Graph, order: seq<Scope>, k: Scope, t: Scope)
    requires Ordered(g, order) && k in order && t in g[k]
    ensures t in order && First(order, t) < First(order, k)
  {
    var i := First(order, k);
    assert t in order[..i];
    var j :| 0 <= j < i && order[j] == t;
    FirstIsFirst(order, t, j);
  }

  /** Along a path the position in such an order falls. */
  lemma {:induction false} PathGoesBack(g: Graph, order: seq<Scope>, p: seq<Scope>)
    requires Ordered(g, order) && IsPath(g, p) && p != [] && p[0] in order
    ensures p[|p| - 1] in order && First(order, p[|p| - 1]) + (|p| - 1) <= First(order, p[0])
    decreases |p|
  {
    if |p| > 1 {
      assert p[1] in g[p[1 - 1]];
      EdgeGoesBack(g, order, p[0], p[1]);
      var q := p[1..];
      forall i | 0 < i < |q| ensures q[i] in g[q[i - 1]] { assert p[i + 1] in g[p[i + 1 - 1]]; }
      PathGoesBack(g, order, q);
    }
  }

  /** An order of all scopes with targets first leaves no room for a cycle. */
  lemma OrderedMeansAcyclic(g: Graph, order: seq<Scope>)
    requires Ordered(g, order) && forall k :: k in g ==> k in order
    ensures !HasCycle(g)
  {
    forall p ensures !IsCycle(g, p) {
      if IsCycle(g, p) { PathGoesBack(g, order, p); }
    }
  }

  // ----- the search

  predicate CycleFree(errors: seq<Issue>) { forall i :: 0 <= i < |errors| ==> !errors[i].Cycle? }

  /** The scopes being visited, as the path the recursion took. */
  predicate StackOk(g: Graph, stack: seq<Scope>, visiting: set<Scope>) {
    IsPath(g, stack) && visiting == set i | 0 <= i < |stack| :: stack[i]
  }

  lemma StackPush(g: Graph, stack: seq<Scope>, visiting: set<Scope>, key: Scope)
    requires StackOk(g, stack, visiting) && key in g && (stack != [] ==> key in g[stack[|stack| - 1]])
    ensures StackOk(g, stack + [key], visiting + {key})
  {
    var s := stack + [key];
    forall i | 0 < i < |s| ensures s[i] in g[s[i - 1]] { }
    assert forall i :: 0 <= i < |stack| ==> s[i] == stack[i];
    assert s[|stack|] == key;
  }

  lemma BackEdge(g: Graph, stack: seq<Scope>, visiting: set<Scope>, key: Scope)
    requires StackOk(g, stack, visiting) && key in visiting && key in g[stack[|stack| - 1]]
    ensures HasCycle(g)
  {
    var i :| 0 <= i < |stack| && stack[i] == key;
    var p := stack[i..] + [key];
    forall j | 0 < j < |p| ensures p[j] in g[p[j - 1]] {
      if j < |p| - 1 { assert stack[i + j] in g[stack[i + j - 1]]; }
    }
    assert IsCycle(g, p);
  }

  class Search {
    const graph: Graph
    var visiting: set<Scope>
    var visited: set<Scope>
    var errors: seq<Issue>
    ghost var order: seq<Scope>   // visited scopes in the order they were finished

    constructor (graph: Graph, errors: seq<Issue>)
      requires CycleFree(errors)
      ensures this.graph == graph && this.errors == errors && visiting == {} && visited == {} && Consistent()
    {
      this.graph, this.errors := graph, errors;
      visiting, visited, order := {}, {}, [];
    }

    /** No cycle reported yet: the finished scopes are ordered.  Reported: there is one. */
    ghost predicate Consistent()
      reads this
    {
      && (forall k :: k in visited <==> k in order)
      && (forall k :: k in visited ==> k in graph)
      && (CycleFree(errors) ==> Ordered(graph, order))
      && (!CycleFree(errors) ==> HasCycle(graph))
    }

    method Visit(key: Scope, ghost stack: seq<Scope>)
      requires Closed(graph) && key in graph && Consistent()
      requires StackOk(graph, stack, visiting) && (stack != [] ==> key in graph[stack[|stack| - 1]])
      modifies this`visiting, this`visited, this`errors, this`order
      ensures Consistent() && visiting == old(visiting) && old(visited) <= visited
      ensures old(errors) <= errors && forall i :: |old(errors)| <= i < |errors| ==> errors[i].Cycle?
      ensures CycleFree(errors) ==> key in visited
      decreases graph.Keys - visiting - visited
    {
      if key in visiting {
        BackEdge(graph, stack, visiting, key);
        errors := errors + [Cycle(key)];
        assert errors[|errors| - 1].Cycle?;
        return;
      }
      if key in visited { return; }
      StackPush(graph, stack, visiting, key);
      visiting := visiting + {key};
      var targets := graph[key];
      for i := 0 to |targets|
        invariant Consistent() && visiting == old(visiting) + {key} && old(visited) <= visited
        invariant old(errors) <= errors && forall j :: |old(errors)| <= j < |errors| ==> errors[j].Cycle?
        invariant CycleFree(errors) ==> forall j :: 0 <= j < i ==> targets[j] in visited
      {
        assert targets[i] in graph[key];
        ghost var before := errors;
        assert key in graph.Keys - old(visiting) - old(visited) && key !in graph.Keys - visiting - visited;
        assert graph.Keys - visiting - visited <= graph.Keys - old(visiting) - old(visited);
        Visit(targets[i], stack + [key]);
        FewerCycles(before, errors);
      }
      visiting := visiting - {key};
      Finished(graph, order, key);
      visited := visited + {key};
      order := order + [key];
    }
  }

  lemma FewerCycles(a: seq<Issue>, b: seq<Issue>)
    requires a <= b
    ensures CycleFree(b) ==> CycleFree(a)
  {
  }

  lemma Finished(g: Graph, order: seq<Scope>, key: Scope)
    requires key in g
    ensures Ordered(g, order) && (forall t :: t in g[key] ==> t in order) ==> Ordered(g, order + [key])
  {
    var longer := order + [key];
    if Ordered(g, order) && (forall t :: t in g[key] ==> t in order) {
      forall i, t | 0 <= i < |longer| && t in g[longer[i]] ensures t in longer[..i] {
        if i < |order| { assert longer[..i] == order[..i]; } else { assert longer[..i] == order; }
      }
    }
  }

  lemma OnlyCyclesAdded(a: seq<Issue>, b: seq<Issue>)
    requires a <= b && forall i :: |a| <= i < |b| ==> b[i].Cycle?
    ensures b == [] <==> a == [] && CycleFree(b)
  {
    if |a| < |b| { assert b[|a|].Cycle?; }
  }

  // ----- the checker

  /** The routes by scope; a later route of the same scope replaces an earlier one. */
  function RoutesBelow(routes: seq<Route>, n: nat): map<Scope, Route>
    requires n <= |routes|
  {
    if n == 0 then map[] else RoutesBelow(routes, n - 1)[routes[n - 1].scope := routes[n - 1]]
  }

  function Table(routes: seq<Route>): map<Scope, Route> { RoutesBelow(routes, |routes|) }

  /** The next steps of a route that are well-formed steps, as scopes. */
  predicate Leads(table: map<Scope, Route>, k: Scope, t: Scope) {
    && k in table && table[k].nextSteps.Some?
    && exists i :: 0 <= i < |table[k].nextSteps.value| && TargetOf(k, table[k].nextSteps.value[i]) == Some(t)
  }

  /** The graph whose cycles matter: an edge for each next action that has a route. */
  ghost predicate IsGraphOf(g: Graph, table: map<Scope, Route>) {
    g.Keys == table.Keys && forall k, t :: k in g ==> (t in g[k] <==> Leads(table, k, t) && t in table)
  }

  /** Next actions that lead from a route back to itself. */
  ghost predicate IsRouteCycle(table: map<Scope, Route>, p: seq<Scope>) {
    |p| >= 2 && p[0] == p[|p| - 1] && forall i :: 0 < i < |p| ==> Leads(table, p[i - 1], p[i])
  }

  ghost predicate HasRouteCycle(table: map<Scope, Route>) { exists p :: IsRouteCycle(table, p) }

  /** Leaving out the next actions without a route loses no cycle. */
  lemma CyclesOfGraph(g: Graph, table: map<Scope, Route>)
    requires IsGraphOf(g, table)
    ensures HasCycle(g) <==> HasRouteCycle(table)
  {
    if HasCycle(g) {
      var p :| IsCycle(g, p);
      forall i | 0 < i < |p| ensures Leads(table, p[i - 1], p[i]) { assert p[i] in g[p[i - 1]]; }
      assert IsRouteCycle(table, p);
    }
    if HasRouteCycle(table) {
      var p :| IsRouteCycle(table, p);
      forall i | 0 <= i < |p| ensures p[i] in g {
        var j := if i + 1 < |p| then i + 1 else 1;
        assert Leads(table, p[j - 1], p[j]);
      }
      assert IsCycle(g, p);
    }
  }

  method BuildTable(routes: seq<Route>) returns (table: map<Scope, Route>, errors: seq<Issue>)
    ensures table == Table(routes) && CycleFree(errors)
    ensures errors == [] <==> forall i, j :: 0 <= i < j < |routes| ==> routes[i].scope != routes[j].scope
  {
    table, errors := map[], [];
    for n := 0 to |routes|
      invariant table == RoutesBelow(routes, n) && CycleFree(errors)
      invariant forall k :: k in table <==> exists i :: 0 <= i < n && routes[i].scope == k
      invariant errors == [] <==> forall i, j :: 0 <= i < j < n ==> routes[i].scope != routes[j].scope
    {
      var key := routes[n].scope;
      if key in table { errors := errors + [DuplicateScope(key)]; }
      table := table[key := routes[n]];
    }
  }

  /** The edges out of one route; a next action without a route is reported. */
  method BuildEdges(table: map<Scope, Route>, key: Scope, before: seq<Issue>) returns (edges: seq<Scope>, errors: seq<Issue>)
    requires key in table && CycleFree(before)
    ensures forall t :: t in edges <==> Leads(table, key, t) && t in table
    ensures CycleFree(errors) && before <= errors
    ensures errors == before <==> forall t :: Leads(table, key, t) ==> t in table
  {
    edges, errors := [], before;
    var steps := if table[key].nextSteps.Some? then table[key].nextSteps.value else [];
    for i := 0 to |steps|
      invariant forall t :: t in edges <==> t in table && exists j :: 0 <= j < i && TargetOf(key, steps[j]) == Some(t)
      invariant CycleFree(errors) && before <= errors
      invariant errors == before <==>
                forall j, t :: 0 <= j < i && TargetOf(key, steps[j]) == Some(t) ==> t in table
    {
      var target := TargetOf(key, steps[i]);
      if target.Some? {
        if target.value !in table {
          errors := errors + [NoRoute(key, steps[i])];
        } else {
          edges := edges + [target.value];
        }
      }
    }
  }

  method BuildGraph(table: map<Scope, Route>, before: seq<Issue>) returns (g: Graph, errors: seq<Issue>)
    requires CycleFree(before)
    ensures IsGraphOf(g, table) && CycleFree(errors) && before <= errors
    ensures errors == before <==> forall k, t :: Leads(table, k, t) ==> t in table
  {
    g, errors := map[], before;
    var rest := table.Keys;
    while rest != {}
      invariant rest <= table.Keys && g.Keys == table.Keys - rest && CycleFree(errors) && before <= errors
      invariant forall k, t :: k in g ==> (t in g[k] <==> Leads(table, k, t) && t in table)
      invariant errors == before <==> forall k, t :: k in g && Leads(table, k, t) ==> t in table
      decreases |rest|
    {
      var key :| key in rest;
      var edges, more := BuildEdges(table, key, errors);
      g, errors, rest := g[key := edges], more, rest - {key};
    }
  }

  /**
    The route part of the checker terminates and reports a cycle exactly when
    the route graph has one; without errors the graph is acyclic, scopes are
    unique and every next action has a route.
   */
  method CheckRoutes(routes: seq<Route>) returns (errors: seq<Issue>)
    ensures !CycleFree(errors) <==> HasRouteCycle(Table(routes))
    ensures errors == [] <==>
              && (forall i, j :: 0 <= i < j < |routes| ==> routes[i].scope != routes[j].scope)
              && (forall k, t :: Leads(Table(routes), k, t) ==> t in Table(routes))
              && !HasRouteCycle(Table(routes))
  {
    var table, graph;
    table, errors := BuildTable(routes);
    ghost var duplicates := errors;
    graph, errors := BuildGraph(table, errors);
    CyclesOfGraph(graph, table);
    ghost var found := errors;
    assert found == [] <==> duplicates == [] && found == duplicates;
    var search := new Search(graph, errors);
    var rest := graph.Keys;
    while rest != {}
      invariant search.Consistent() && search.graph == graph && search.visiting == {} && rest <= graph.Keys
      invariant found <= search.errors && forall i :: |found| <= i < |search.errors| ==> search.errors[i].Cycle?
      invariant CycleFree(search.errors) ==> graph.Keys - rest <= search.visited
      decreases |rest|
    {
      var key :| key in rest;
      ghost var before := search.errors;
      search.Visit(key, []);
      FewerCycles(before, search.errors);
      rest := rest - {key};
    }
    errors := search.errors;
    OnlyCyclesAdded(found, errors);
    if CycleFree(errors) { OrderedMeansAcyclic(graph, search.order); }
  }
}
