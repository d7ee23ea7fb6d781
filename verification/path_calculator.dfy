/** PathCalculator: the depth-first relaxation, the walk back along parent
    pointers, and the recording of one route per end node. */
module PathCalculators {
  import opened GraphItems
  import opened Graphs
  import opened Sorting
  import opened Relaxation

  /** Following parent pointers from `x` reaches `start` within `fuel` steps. */
  ghost predicate ReachesWithin(items: seq<Item>, x: nat, start: nat, fuel: nat)
    requires Wf(items) && x < |items|
    decreases fuel
  {
    x == start ||
    (fuel > 0 && items[x].parent >= 0 && ReachesWithin(items, items[x].parent, start, fuel - 1))
  }

  /** The parent chain from `x` reaches `start`: the walk of `GetCheapestWay` ends. */
  ghost predicate Reaches(items: seq<Item>, x: nat, start: nat)
    requires Wf(items) && x < |items|
  {
    exists fuel: nat :: ReachesWithin(items, x, start, fuel)
  }

  /** `p` is the parent chain from `start` to `x`, read forwards: it begins with
      `start`, ends with `x`, each node's parent is the node before it, and `start`
      occurs only at the front. */
  ghost predicate IsWay(items: seq<Item>, p: seq<nat>, x: nat, start: nat) {
    p != [] && p[0] == start && p[|p| - 1] == x && AllBelow(p, |items|) &&
    forall j :: 0 < j < |p| ==> items[p[j]].parent == p[j - 1] && p[j] != start
  }

  /** The chain, built by prepending each node met on the way back. */
  ghost function WayWithin(items: seq<Item>, x: nat, start: nat, fuel: nat): (p: seq<nat>)
    requires Wf(items) && x < |items| && start < |items| && ReachesWithin(items, x, start, fuel)
    ensures IsWay(items, p, x, start)
    decreases fuel
  {
    if x == start then [start]
    else WayWithin(items, items[x].parent, start, fuel - 1) + [x]
  }

  /** There is only one chain from `start` to `x`. */
  lemma {:induction false} WayUnique(items: seq<Item>, p: seq<nat>, q: seq<nat>, x: nat, start: nat)
    requires IsWay(items, p, x, start) && IsWay(items, q, x, start)
    ensures p == q
    decreases |p|
  {
    if x == start {
      assert |p| == 1 && |q| == 1;
    } else {
      var m, n := |p| - 1, |q| - 1;
      assert p[m - 1] == items[x].parent == q[n - 1];
      assert IsWay(items, p[..m], p[m - 1], start);
      assert IsWay(items, q[..n], q[n - 1], start);
      WayUnique(items, p[..m], q[..n], p[m - 1], start);
      assert p == p[..m] + [x] && q == q[..n] + [x];
    }
  }

  /** The route `GetCheapestWay` returns when the chain reaches the start. */
  ghost function WayOf(items: seq<Item>, x: nat, start: nat): (p: seq<nat>)
    requires Wf(items) && x < |items| && start < |items| && Reaches(items, x, start)
    ensures IsWay(items, p, x, start)
  {
    var fuel :| ReachesWithin(items, x, start, fuel);
    WayWithin(items, x, start, fuel)
  }

  /** From the start node to itself the route is the start node alone. */
  lemma WayToStart(items: seq<Item>, start: nat)
    requires Wf(items) && start < |items|
    ensures Reaches(items, start, start)
    ensures WayOf(items, start, start) == [start]
  {
    assert ReachesWithin(items, start, start, 0);
    WayUnique(items, WayOf(items, start, start), [start], start, start);
  }

  /** PathCalculator: the graph, the current start and end nodes, and the routes
      found so far. */
  class PathCalculator {
    const graph: Graph
    var startNode: nat
    var endNode: nat
    var routes: seq<seq<nat>>

    constructor (graph: Graph)
      ensures this.graph == graph && routes == []
    {
      this.graph := graph;
      startNode, endNode := 0, 0;
      routes := [];
    }

    /** `CalcWeights(node)`: sort the neighbours, relax them, mark the node passed,
        then descend into the neighbours still unpassed. */
    method CalcWeights(node: nat)
      requires Wf(graph.items) && node < |graph.items| && RoutesOk(routes, |graph.items|)
      modifies graph
      ensures graph.nodes == old(graph.nodes)
      ensures graph.items == CalcWeightsOf(old(graph.items), routes, node)
      decreases Unpassed(graph.items), if graph.items[node].isPassed then 2 else 0, 0
    {
      ghost var s0 := graph.items;
      var sorted := SortByWeight(graph.items, graph.items[node].neighbours);
      graph.items := graph.items[node := graph.items[node].(neighbours := sorted)];
      RelaxAllShape(graph.items, node, sorted, 0, routes);
      RelaxNeighbours(node, sorted);
      graph.items := graph.items[node := graph.items[node].(isPassed := true)];
      assert graph.items == Visited(s0, routes, node);
      VisitNeighbours(sorted);
    }

    /** The first loop of `CalcWeights`: for each neighbour in order, the candidate
        weight is the node's weight plus the neighbour's. */
    method RelaxNeighbours(node: nat, ns: seq<nat>)
      requires node < |graph.items| && AllBelow(ns, |graph.items|) && RoutesOk(routes, |graph.items|)
      modifies graph
      ensures graph.nodes == old(graph.nodes)
      ensures graph.items == RelaxAll(old(graph.items), node, ns, 0, routes)
    {
      ghost var s1 := graph.items;
      var i := 0;
      while i < |ns|
        invariant 0 <= i <= |ns|
        invariant graph.nodes == old(graph.nodes) && |graph.items| == |s1|
        invariant RelaxAll(graph.items, node, ns, i, routes) == RelaxAll(s1, node, ns, 0, routes)
      {
        var g := ns[i];
        var newWeight := graph.items[node].weight + graph.items[g].weight;
        RelaxRoutesFor(node, g, newWeight);
        i := i + 1;
      }
    }

    /** The inner loop over the recorded routes: `g->SetWeight(w, node)` for every
        route whose last node carries the name of `node`. */
    method RelaxRoutesFor(node: nat, g: nat, w: int)
      requires node < |graph.items| && g < |graph.items| && RoutesOk(routes, |graph.items|)
      modifies graph
      ensures graph.nodes == old(graph.nodes)
      ensures graph.items == RelaxRoutes(old(graph.items), node, g, w, routes, 0)
    {
      ghost var t0 := graph.items;
      var k := 0;
      while k < |routes|
        invariant 0 <= k <= |routes|
        invariant graph.nodes == old(graph.nodes) && |graph.items| == |t0|
        invariant RelaxRoutes(graph.items, node, g, w, routes, k) == RelaxRoutes(t0, node, g, w, routes, 0)
      {
        var path := routes[k];
        if graph.items[path[|path| - 1]].name == graph.items[node].name {
          var changed := graph.SetWeight(g, w, node);
        }
        k := k + 1;
      }
    }

    /** The second loop of `CalcWeights`: `CalcWeights(g)` for each neighbour `g`
        not passed when its turn comes. */
    method VisitNeighbours(ns: seq<nat>)
      requires Wf(graph.items) && AllBelow(ns, |graph.items|) && RoutesOk(routes, |graph.items|)
      modifies graph
      ensures graph.nodes == old(graph.nodes)
      ensures graph.items == VisitAll(old(graph.items), routes, ns, 0)
      decreases Unpassed(graph.items), 1, |ns|
    {
      ghost var s3 := graph.items;
      var i := 0;
      while i < |ns|
        invariant 0 <= i <= |ns|
        invariant graph.nodes == old(graph.nodes) && |graph.items| == |s3| && Wf(graph.items)
        invariant Unpassed(graph.items) <= Unpassed(s3)
        invariant VisitAll(graph.items, routes, ns, i) == VisitAll(s3, routes, ns, 0)
      {
        if !graph.items[ns[i]].isPassed {
          CalcWeights(ns[i]);
        }
        i := i + 1;
      }
    }

    /** `GetCheapestWay()`: walk the parent pointers back from the end node, pushing
        each node to the front, until the start node, which is pushed last. */
    method GetCheapestWay() returns (path: seq<nat>)
      requires Wf(graph.items) && startNode < |graph.items| && endNode < |graph.items|
      requires Reaches(graph.items, endNode, startNode)
      ensures IsWay(graph.items, path, endNode, startNode)
      ensures path == WayOf(graph.items, endNode, startNode)
    {
      ghost var fuel: nat :| ReachesWithin(graph.items, endNode, startNode, fuel);
      ghost var whole := WayWithin(graph.items, endNode, startNode, fuel);
      path := [];
      var finish: nat := endNode;
      while finish != startNode
        invariant finish < |graph.items| && ReachesWithin(graph.items, finish, startNode, fuel)
        invariant WayWithin(graph.items, finish, startNode, fuel) + path == whole
        decreases fuel
      {
        path := [finish] + path;
        finish := graph.items[finish].parent as nat;
        fuel := fuel - 1;
      }
      path := [startNode] + path;
      WayUnique(graph.items, path, WayOf(graph.items, endNode, startNode), endNode, startNode);
    }

    /** `CalcOneRoute(finish)` without its printing: relax from the start node, walk
        back from `finish`, and record that route. */
    method CalcOneRoute(finish: nat)
      requires graph.Valid() && startNode < |graph.items| && finish < |graph.items|
      requires RoutesOk(routes, |graph.items|)
      requires Reaches(CalcWeightsOf(graph.items, routes, startNode), finish, startNode)
      modifies this, graph
      ensures graph.Valid() && graph.nodes == old(graph.nodes)
      ensures startNode == old(startNode) && endNode == finish
      ensures graph.items == CalcWeightsOf(old(graph.items), old(routes), startNode)
      ensures routes == old(routes) + [WayOf(graph.items, finish, startNode)]
      ensures RoutesOk(routes, |graph.items|)
    {
      endNode := finish;
      CalcWeights(startNode);
      var p := GetCheapestWay();
      routes := routes + [p];
    }
  }
}
