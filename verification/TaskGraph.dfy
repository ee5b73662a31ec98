/** Cycle detection over the dependency graph of a task list (agent-gateway/jobPlanner.ts). */
module TaskGraph {
  import opened Collections

  /** Dependencies by task; a name without an entry has none. */
  type Graph = map<string, seq<string>>

  datatype TaskSpec = TaskSpec(id: string, dependencies: seq<string>)

  function Edges(g: Graph, node: string): seq<string> {
    if node in g then g[node] else []
  }

  /** The adjacency map: a later task of the same name replaces an earlier one. */
  function Adjacency(tasks: seq<TaskSpec>): Graph {
    if tasks == [] then map[]
    else Adjacency(Front(tasks))[Last(tasks).id := Last(tasks).dependencies]
  }

  ghost predicate IsPath(g: Graph, p: seq<string>) {
    forall i :: 0 <= i < |p| - 1 ==> p[i + 1] in Edges(g, p[i])
  }

  ghost predicate IsCycle(g: Graph, p: seq<string>) {
    |p| >= 2 && p[0] == Last(p) && IsPath(g, p)
  }

  ghost predicate Acyclic(g: Graph) {
    forall p :: !IsCycle(g, p)
  }

  /** Every name in the list comes after all of its dependencies. */
  ghost predicate DependencyOrder(g: Graph, order: seq<string>) {
    NoDup(order) && forall i, d :: 0 <= i < |order| && d in Edges(g, order[i]) ==> d in order[..i]
  }

  ghost function Position(order: seq<string>, node: string): (i: nat)
    requires node in order
    ensures i < |order| && order[i] == node
  {
    var i :| 0 <= i < |order| && order[i] == node;
    i
  }

  /** Along a path the positions in a dependency order go down with every edge. */
  lemma {:induction false} PathDescends(g: Graph, order: seq<string>, p: seq<string>, k: nat)
    requires DependencyOrder(g, order) && IsPath(g, p) && k < |p| && p[0] in order
    ensures p[k] in order && Position(order, p[k]) + k <= Position(order, p[0])
  {
    if k > 0 {
      PathDescends(g, order, p, k - 1);
      var i := Position(order, p[k - 1]);
      assert p[k - 1 + 1] in Edges(g, order[i]);
      assert p[k] in order[..i];
    }
  }

  /** A dependency order of all tasks rules out every cycle. */
  lemma OrderedIsAcyclic(g: Graph, order: seq<string>)
    requires DependencyOrder(g, order) && forall n :: n in g ==> n in order
    ensures Acyclic(g)
  {
    forall p | IsCycle(g, p)
      ensures false
    {
      assert p[0 + 1] in Edges(g, p[0]);
      PathDescends(g, order, p, |p| - 1);
    }
  }

  lemma OrderGrows(g: Graph, order: seq<string>, node: string)
    requires DependencyOrder(g, order) && node !in order
    requires forall d :: d in Edges(g, node) ==> d in order
    ensures DependencyOrder(g, order + [node])
  {
    forall i, d | 0 <= i < |order + [node]| && d in Edges(g, (order + [node])[i])
      ensures d in (order + [node])[..i]
    {
      assert (order + [node])[..i] == order[..i];
    }
  }

  /** The stack from the repeated name on, closed by that name, is a cycle. */
  ghost predicate StackShowsCycle(g: Graph, stack: seq<string>, node: string) {
    exists i :: 0 <= i < |stack| && stack[i] == node && IsCycle(g, stack[i..] + [node])
  }

  lemma RevisitShowsCycle(g: Graph, stack: seq<string>, node: string)
    requires IsPath(g, stack) && node in stack && node in Edges(g, Last(stack))
    ensures StackShowsCycle(g, stack, node)
  {
    assert IsCycle(g, stack[Position(stack, node)..] + [node]);
  }

  /** Going down an edge extends the path on the stack. */
  lemma PushKeepsPath(g: Graph, stack: seq<string>, node: string)
    requires IsPath(g, stack) && NoDup(stack) && node !in stack
    requires stack != [] ==> node in Edges(g, Last(stack))
    ensures IsPath(g, stack + [node]) && NoDup(stack + [node])
    ensures (stack + [node])[..|stack|] == stack
  {
  }

  ghost function Nodes(g: Graph): set<string> {
    g.Keys + set n, d | n in g && d in g[n] :: d
  }

  /** The depth-first search; `stack` and `visited` are insertion-ordered sets. */
  class CycleSearch {
    const graph: Graph
    var visited: seq<string>
    var stack: seq<string>

    constructor (graph: Graph)
      ensures this.graph == graph && visited == [] && stack == [] && Valid()
    {
      this.graph := graph;
      visited, stack := [], [];
    }

    ghost predicate Valid()
      reads this
    {
      && DependencyOrder(graph, visited)
      && NoDup(stack) && IsPath(graph, stack)
      && (forall n :: n in stack ==> n in Nodes(graph) && n !in visited)
    }

    ghost function Unstacked(): set<string>
      reads this
    {
      Nodes(graph) - set n | n in stack
    }

    method Visit(node: string) returns (cyclicAt: Option<string>)
      requires Valid() && node in Nodes(graph)
      requires stack != [] ==> node in Edges(graph, Last(stack))
      modifies this
      ensures cyclicAt.None? ==> Valid() && stack == old(stack) && old(visited) <= visited && node in visited
      ensures cyclicAt.Some? ==> StackShowsCycle(graph, stack, cyclicAt.value)
      decreases Unstacked()
    {
      if node in stack {
        RevisitShowsCycle(graph, stack, node);
        return Some(node);
      }
      if node in visited {
        return None;
      }
      ghost var unstacked := Unstacked();
      PushKeepsPath(graph, stack, node);
      stack := stack + [node];
      assert Unstacked() < unstacked by {
        assert node in unstacked && node !in Unstacked();
      }
      var dependencies := Edges(graph, node);
      for i := 0 to |dependencies|
        invariant Valid() && stack == old(stack) + [node] && old(visited) <= visited
        invariant forall j :: 0 <= j < i ==> dependencies[j] in visited
      {
        assert node in graph && dependencies[i] in graph[node];
        cyclicAt := Visit(dependencies[i]);
        if cyclicAt.Some? {
          return;
        }
      }
      stack := stack[..|stack| - 1];
      OrderGrows(graph, visited, node);
      visited := visited + [node];
      return None;
    }
  }

  /**
   * Returns normally exactly on acyclic graphs.  The order of entry into `visited` is then a
   * dependency order of all tasks; otherwise the search stopped on a name that lies on a cycle.
   */
  method AssertNoCycles(tasks: seq<TaskSpec>) returns (cyclicAt: Option<string>, ghost order: seq<string>)
    ensures cyclicAt.None? <==> Acyclic(Adjacency(tasks))
    ensures cyclicAt.None? ==> DependencyOrder(Adjacency(tasks), order) && forall t :: t in tasks ==> t.id in order
    ensures cyclicAt.Some? ==> exists p :: IsCycle(Adjacency(tasks), p) && p[0] == cyclicAt.value
  {
    var adjacency: Graph := map[];
    for i := 0 to |tasks|
      invariant adjacency == Adjacency(tasks[..i])
      invariant forall n :: n in adjacency <==> exists j :: 0 <= j < i && tasks[j].id == n
    {
      assert Front(tasks[..i + 1]) == tasks[..i];
      adjacency := adjacency[tasks[i].id := tasks[i].dependencies];
    }
    assert tasks[..|tasks|] == tasks;
    var search := new CycleSearch(adjacency);
    order := [];
    for i := 0 to |tasks|
      invariant fresh(search) && search.graph == adjacency && search.Valid() && search.stack == []
      invariant forall j :: 0 <= j < i ==> tasks[j].id in search.visited
    {
      cyclicAt := search.Visit(tasks[i].id);
      if cyclicAt.Some? {
        return;
      }
    }
    order := search.visited;
    OrderedIsAcyclic(adjacency, order);
    return None, order;
  }
}
