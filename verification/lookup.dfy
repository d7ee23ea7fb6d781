/** `LookUpOptimalRoute`: build the graph, set the start node's weight to zero,
    compute one route per listed node carrying the destination's name, then pick
    the cheapest through a price-keyed map whose `insert` keeps the first route
    seen for each price. */
module LookUp {
  import opened GraphItems
  import opened Graphs
  import opened Builder
  import opened Relaxation
  import opened PathCalculators

  /** The arena and the recorded routes after some runs. */
  datatype Runs = Runs(items: seq<Item>, routes: seq<seq<nat>>)

  /** The start node with its weight and parent-weight snapshot set to zero. */
  function Started(items: seq<Item>, start: nat): (r: seq<Item>)
    requires Wf(items) && start < |items|
    ensures Wf(r) && |r| == |items|
    ensures r[start] == items[start].(weight := 0, weightParent := 0)
    ensures forall i :: 0 <= i < |items| && i != start ==> r[i] == items[i]
  {
    items[start := items[start].(weight := 0, weightParent := 0)]
  }

  lemma RoutesOkSnoc(routes: seq<seq<nat>>, p: seq<nat>, n: nat)
    requires RoutesOk(routes, n) && p != [] && AllBelow(p, n)
    ensures RoutesOk(routes + [p], n)
  {
    assert forall k :: 0 <= k < |routes| ==> (routes + [p])[k] == routes[k];
  }

  /** `p` leads from `start` to `x`. */
  predicate FromTo(p: seq<nat>, start: nat, x: nat) {
    p != [] && p[0] == start && p[|p| - 1] == x
  }

  /** Whether `CalcOneRoute(x)` is defined on `r`: relaxing from the start node
      leaves a parent chain from `x` back to it. */
  ghost predicate RunOk(r: Runs, start: nat, x: nat) {
    Wf(r.items) && RoutesOk(r.routes, |r.items|) && start < |r.items| && x < |r.items| &&
    Reaches(CalcWeightsOf(r.items, r.routes, start), x, start)
  }

  /** `CalcOneRoute(x)`: relax from the start node, then record the route to `x`. */
  ghost function RunOne(r: Runs, start: nat, x: nat): (r': Runs)
    requires RunOk(r, start, x)
    ensures |r'.items| == |r.items| && Wf(r'.items) && RoutesOk(r'.routes, |r'.items|)
    ensures |r'.routes| == |r.routes| + 1 && r'.routes[..|r.routes|] == r.routes
    ensures FromTo(r'.routes[|r.routes|], start, x)
  {
    var s := CalcWeightsOf(r.items, r.routes, start);
    var p := WayOf(s, x, start);
    RoutesOkSnoc(r.routes, p, |s|);
    Runs(s, r.routes + [p])
  }

  /** Every run from the `i`-th end node on is defined. */
  ghost predicate RunsDefined(r: Runs, start: nat, ends: seq<nat>, i: nat)
    requires i <= |ends|
    decreases |ends| - i
  {
    i == |ends| || (RunOk(r, start, ends[i]) && RunsDefined(RunOne(r, start, ends[i]), start, ends, i + 1))
  }

  /** The state after `CalcOneRoute` has run for every end node from the `i`-th on. */
  ghost function RunAll(r: Runs, start: nat, ends: seq<nat>, i: nat): (r': Runs)
    requires Wf(r.items) && RoutesOk(r.routes, |r.items|)
    requires i <= |ends| && RunsDefined(r, start, ends, i)
    ensures Wf(r'.items) && RoutesOk(r'.routes, |r'.items|)
    ensures |r'.routes| == |r.routes| + |ends| - i
    decreases |ends| - i
  {
    if i == |ends| then r else RunAll(RunOne(r, start, ends[i]), start, ends, i + 1)
  }

  /** The runs keep the routes already recorded. */
  lemma {:induction false} RunAllKeeps(r: Runs, start: nat, ends: seq<nat>, i: nat, k: nat)
    requires Wf(r.items) && RoutesOk(r.routes, |r.items|)
    requires i <= |ends| && RunsDefined(r, start, ends, i) && k < |r.routes|
    ensures RunAll(r, start, ends, i).routes[k] == r.routes[k]
    decreases |ends| - i
  {
    if i < |ends| {
      var r1 := RunOne(r, start, ends[i]);
      assert r1.routes[k] == r.routes[k];
      RunAllKeeps(r1, start, ends, i + 1, k);
    }
  }

  /** The first of the runs adds a route from the start node to the first end node. */
  lemma RunAllFirst(r: Runs, start: nat, ends: seq<nat>, i: nat)
    requires Wf(r.items) && RoutesOk(r.routes, |r.items|)
    requires i < |ends| && RunsDefined(r, start, ends, i)
    ensures FromTo(RunAll(r, start, ends, i).routes[|r.routes|], start, ends[i])
  {
    var r1 := RunOne(r, start, ends[i]);
    RunAllKeeps(r1, start, ends, i + 1, |r.routes|);
  }

  /** The runs from the `i`-th end node on are the `i`-th run followed by the rest. */
  lemma RunAllStep(r: Runs, start: nat, ends: seq<nat>, i: nat)
    requires Wf(r.items) && RoutesOk(r.routes, |r.items|)
    requires i < |ends| && RunsDefined(r, start, ends, i)
    ensures RunOk(r, start, ends[i])
    ensures var r1 := RunOne(r, start, ends[i]);
            Wf(r1.items) && RoutesOk(r1.routes, |r1.items|) && |r1.routes| == |r.routes| + 1 &&
            RunsDefined(r1, start, ends, i + 1) && RunAll(r, start, ends, i) == RunAll(r1, start, ends, i + 1)
  {
  }

  /** From position `n` on, `routes` holds one route per end node from the `i`-th on,
      in order, each leading from `start` to its end node. */
  ghost predicate Matched(routes: seq<seq<nat>>, n: nat, start: nat, ends: seq<nat>, i: nat)
    requires i <= |ends|
    decreases |ends| - i
  {
    n <= |routes| && |routes| - n == |ends| - i &&
    (i == |ends| || (FromTo(routes[n], start, ends[i]) && Matched(routes, n + 1, start, ends, i + 1)))
  }

  /** The `j`-th route of a matched stretch leads to the `j`-th end node. */
  lemma {:induction false} MatchedAt(routes: seq<seq<nat>>, n: nat, start: nat, ends: seq<nat>, i: nat, j: nat)
    requires i + j < |ends| && Matched(routes, n, start, ends, i)
    ensures n + j < |routes| && FromTo(routes[n + j], start, ends[i + j])
    decreases j
  {
    if j > 0 {
      MatchedAt(routes, n + 1, start, ends, i + 1, j - 1);
      assert n + 1 + (j - 1) == n + j && i + 1 + (j - 1) == i + j;
    }
  }

  /** The runs add one route per end node, in end-list order, each leading from the
      start node to its end node. */
  lemma {:induction false} RunAllMatched(r: Runs, start: nat, ends: seq<nat>, i: nat)
    requires Wf(r.items) && RoutesOk(r.routes, |r.items|)
    requires i <= |ends| && RunsDefined(r, start, ends, i)
    ensures Matched(RunAll(r, start, ends, i).routes, |r.routes|, start, ends, i)
    decreases |ends| - i
  {
    if i < |ends| {
      RunAllStep(r, start, ends, i);
      var r1 := RunOne(r, start, ends[i]);
      RunAllMatched(r1, start, ends, i + 1);
      RunAllFirst(r, start, ends, i);
    }
  }

  // ---------------------------------------------------------------------------
  // The reduction.

  /** The price of a route: the sum of the weights its nodes hold when it is priced. */
  function RouteTotal(items: seq<Item>, p: seq<nat>): (w: int)
    requires AllBelow(p, |items|)
    ensures (forall j :: 0 <= j < |p| ==> 0 <= items[p[j]].weight) ==> 0 <= w
    ensures |p| == 1 ==> w == items[p[0]].weight
    decreases |p|
  {
    if p == [] then 0 else RouteTotal(items, p[..|p| - 1]) + items[p[|p| - 1]].weight
  }

  /** The description of a route: the names along it. */
  function RouteNames(items: seq<Item>, p: seq<nat>): (r: seq<string>)
    requires AllBelow(p, |items|)
    ensures |r| == |p| && forall j :: 0 <= j < |p| ==> r[j] == items[p[j]].name
  {
    seq(|p|, j requires 0 <= j < |p| => items[p[j]].name)
  }

  /** The map built over the first `n` routes: each price is inserted with the
      description of the route that has it, and `insert` leaves a price that is
      already present alone. */
  function PriceMap(items: seq<Item>, routes: seq<seq<nat>>, n: nat): (m: map<int, seq<string>>)
    requires RoutesOk(routes, |items|) && n <= |routes|
    ensures 0 < n ==> m != map[]
    ensures 0 < n ==> RouteTotal(items, routes[n - 1]) in m
    decreases n
  {
    if n == 0 then map[]
    else
      var m := PriceMap(items, routes, n - 1);
      var w := RouteTotal(items, routes[n - 1]);
      if w in m then m else m[w := RouteNames(items, routes[n - 1])]
  }

  /** The prices in the map are exactly the totals of the first `n` routes. */
  lemma {:induction false} PriceMapKeys(items: seq<Item>, routes: seq<seq<nat>>, n: nat)
    requires RoutesOk(routes, |items|) && n <= |routes|
    ensures forall k :: k in PriceMap(items, routes, n) <==> exists j :: 0 <= j < n && RouteTotal(items, routes[j]) == k
    decreases n
  {
    if n > 0 {
      PriceMapKeys(items, routes, n - 1);
    }
  }

  /** The inner loop of the reduction: add up the weights along the route and
      collect its names. */
  method PriceRoute(items: seq<Item>, p: seq<nat>) returns (w: int, names: seq<string>)
    requires AllBelow(p, |items|)
    ensures w == RouteTotal(items, p) && names == RouteNames(items, p)
  {
    w, names := 0, [];
    var i := 0;
    while i < |p|
      invariant 0 <= i <= |p| && AllBelow(p[..i], |items|)
      invariant w == RouteTotal(items, p[..i]) && names == RouteNames(items, p[..i])
    {
      assert p[..i + 1][..i] == p[..i];
      w := w + items[p[i]].weight;
      names := names + [items[p[i]].name];
      i := i + 1;
    }
    assert p[..i] == p;
  }

  /** The outer loop of the reduction: price each route in order and `insert` it,
      which leaves a price already in the map alone. */
  method PriceRoutes(items: seq<Item>, routes: seq<seq<nat>>) returns (pmap: map<int, seq<string>>)
    requires RoutesOk(routes, |items|)
    ensures pmap == PriceMap(items, routes, |routes|)
  {
    pmap := map[];
    var i := 0;
    while i < |routes|
      invariant 0 <= i <= |routes| && pmap == PriceMap(items, routes, i)
    {
      var w, names := PriceRoute(items, routes[i]);
      if w !in pmap {
        pmap := pmap[w := names];
      }
      i := i + 1;
    }
  }

  /** Each price maps to the description of the first route that has it. */
  lemma {:induction false} PriceMapFirst(items: seq<Item>, routes: seq<seq<nat>>, n: nat, j: nat)
    requires RoutesOk(routes, |items|) && j < n <= |routes|
    requires forall j' :: 0 <= j' < j ==> RouteTotal(items, routes[j']) != RouteTotal(items, routes[j])
    ensures RouteTotal(items, routes[j]) in PriceMap(items, routes, n)
    ensures PriceMap(items, routes, n)[RouteTotal(items, routes[j])] == RouteNames(items, routes[j])
    decreases n
  {
    if j < n - 1 {
      PriceMapFirst(items, routes, n - 1, j);
    } else {
      PriceMapKeys(items, routes, n - 1);
    }
  }

  /** A finite set of integers holding `x` has a least element. */
  lemma {:induction false} SetMin(s: set<int>, x: int)
    requires x in s
    ensures exists k :: k in s && forall k' :: k' in s ==> k <= k'
    decreases |s|
  {
    var rest := s - {x};
    if y :| y in rest {
      SetMin(rest, y);
      var z :| z in rest && forall k' :: k' in rest ==> z <= k';
      var k := if x < z then x else z;
      forall k' | k' in s ensures k <= k' {
        if k' != x {
          assert k' in rest;
        }
      }
      assert k in s;
    } else {
      forall k' | k' in s ensures x <= k' {
        assert k' !in rest;
      }
    }
  }

  /** `pmap.begin()->first`: the smallest price in the map. */
  function MinKey(m: map<int, seq<string>>): (k: int)
    requires m != map[]
    ensures k in m && forall k' :: k' in m ==> k <= k'
  {
    assert exists x :: x in m by {
      if forall y :: y !in m {
        assert false;
      }
    }
    var x :| x in m;
    SetMin(m.Keys, x);
    var k :| k in m && forall k' :: k' in m ==> k <= k';
    k
  }

  /** The first route of least total among the first `n`: a definition by plain
      comparison, independent of the map. */
  function FirstMin(items: seq<Item>, routes: seq<seq<nat>>, n: nat): (i: nat)
    requires RoutesOk(routes, |items|) && 0 < n <= |routes|
    ensures i < n
    ensures forall j :: 0 <= j < n ==> RouteTotal(items, routes[i]) <= RouteTotal(items, routes[j])
    ensures forall j :: 0 <= j < i ==> RouteTotal(items, routes[j]) > RouteTotal(items, routes[i])
    decreases n
  {
    if n == 1 then 0
    else
      var m := FirstMin(items, routes, n - 1);
      if RouteTotal(items, routes[n - 1]) < RouteTotal(items, routes[m]) then n - 1 else m
  }

  /** What `*pmap.begin()` yields: the least total over all routes, with the
      description of the earliest route that has it. */
  lemma MapBeginIsFirstMin(items: seq<Item>, routes: seq<seq<nat>>)
    requires RoutesOk(routes, |items|) && routes != []
    ensures PriceMap(items, routes, |routes|) != map[]
    ensures MinKey(PriceMap(items, routes, |routes|)) ==
            RouteTotal(items, routes[FirstMin(items, routes, |routes|)])
    ensures PriceMap(items, routes, |routes|)[MinKey(PriceMap(items, routes, |routes|))] ==
            RouteNames(items, routes[FirstMin(items, routes, |routes|)])
  {
    var n := |routes|;
    var i := FirstMin(items, routes, n);
    var m := PriceMap(items, routes, n);
    PriceMapKeys(items, routes, n);
    PriceMapFirst(items, routes, n, i);
    var k := MinKey(m);
    assert k <= RouteTotal(items, routes[i]);
    var j :| 0 <= j < n && RouteTotal(items, routes[j]) == k;
  }

  // ---------------------------------------------------------------------------
  // The whole query.

  /** The listed nodes named `name` in the graph the edges build. */
  ghost function NamedAfter(edges: seq<RouteItem>, name: string): (r: seq<nat>)
    ensures AllBelow(r, |BuildOf(edges).items|)
  {
    NamedIn(BuildOf(edges).items, BuildOf(edges).nodes, name)
  }

  /** The state before the first run: the built graph with the first node named
      `startPoint` given weight zero, and no routes. */
  ghost function Initial(startPoint: string, edges: seq<RouteItem>): (r: Runs)
    requires NamedAfter(edges, startPoint) != []
    ensures Wf(r.items) && RoutesOk(r.routes, |r.items|)
  {
    Runs(Started(BuildOf(edges).items, NamedAfter(edges, startPoint)[0]), [])
  }

  /** The conditions under which `LookUpOptimalRoute` is defined: the origin and the
      destination name some listed node, and every run finds its way back. */
  ghost predicate LookUpDefined(startPoint: string, endPoint: string, edges: seq<RouteItem>) {
    NamedAfter(edges, startPoint) != [] && NamedAfter(edges, endPoint) != [] &&
    RunsDefined(Initial(startPoint, edges), NamedAfter(edges, startPoint)[0], NamedAfter(edges, endPoint), 0)
  }

  /** The arena and the routes once every end node has had its run. */
  ghost function LookUpRuns(startPoint: string, endPoint: string, edges: seq<RouteItem>): (r: Runs)
    requires LookUpDefined(startPoint, endPoint, edges)
    ensures RoutesOk(r.routes, |r.items|) && r.routes != []
  {
    RunAll(Initial(startPoint, edges), NamedAfter(edges, startPoint)[0], NamedAfter(edges, endPoint), 0)
  }

  /** The start of `LookUpOptimalRoute`: build the graph from the edges and look
      up the nodes named by the origin and the destination. */
  method Load(startPoint: string, endPoint: string, edges: seq<RouteItem>)
    returns (graph: Graph, startList: seq<nat>, endList: seq<nat>)
    ensures fresh(graph) && graph.Valid()
    ensures graph.State() == BuildOf(edges)
    ensures startList == NamedAfter(edges, startPoint) && endList == NamedAfter(edges, endPoint)
  {
    graph := BuildGraph(edges);
    startList := graph.GetNode(startPoint);
    endList := graph.GetNode(endPoint);
  }

  /** The start node's weight and parent-weight snapshot both set to zero. */
  method ZeroStart(graph: Graph, start: nat)
    requires graph.Valid() && start < |graph.items|
    modifies graph
    ensures graph.Valid() && graph.nodes == old(graph.nodes)
    ensures graph.items == Started(old(graph.items), start)
  {
    graph.items := Started(graph.items, start);
  }

  /** The part of `LookUpOptimalRoute` before the runs: the path calculator over
      the built graph, its start node the first one listed, given weight zero. */
  method Prepare(startPoint: string, endPoint: string, edges: seq<RouteItem>)
    returns (pathCalc: PathCalculator, endList: seq<nat>)
    requires NamedAfter(edges, startPoint) != []
    ensures fresh(pathCalc) && fresh(pathCalc.graph) && pathCalc.graph.Valid()
    ensures pathCalc.startNode == NamedAfter(edges, startPoint)[0] && endList == NamedAfter(edges, endPoint)
    ensures pathCalc.graph.nodes == BuildOf(edges).nodes
    ensures Runs(pathCalc.graph.items, pathCalc.routes) == Initial(startPoint, edges)
  {
    var graph, startList;
    graph, startList, endList := Load(startPoint, endPoint, edges);
    pathCalc := new PathCalculator(graph);
    pathCalc.startNode := startList[0];
    ZeroStart(graph, startList[0]);
  }

  /** The loop of `LookUpOptimalRoute` over the end list: one `CalcOneRoute` per
      end node, each a direct call where the source starts a thread and joins it
      at once. */
  method RunEach(pathCalc: PathCalculator, ends: seq<nat>)
    requires pathCalc.graph.Valid() && RoutesOk(pathCalc.routes, |pathCalc.graph.items|)
    requires RunsDefined(Runs(pathCalc.graph.items, pathCalc.routes), pathCalc.startNode, ends, 0)
    modifies pathCalc, pathCalc.graph
    ensures pathCalc.graph.Valid() && pathCalc.startNode == old(pathCalc.startNode)
    ensures pathCalc.graph.nodes == old(pathCalc.graph.nodes)
    ensures ends != [] ==> pathCalc.endNode == ends[|ends| - 1]
    ensures Runs(pathCalc.graph.items, pathCalc.routes) ==
            RunAll(old(Runs(pathCalc.graph.items, pathCalc.routes)), pathCalc.startNode, ends, 0)
  {
    var graph := pathCalc.graph;
    ghost var r0 := Runs(graph.items, pathCalc.routes);
    var i := 0;
    while i < |ends|
      invariant 0 <= i <= |ends| && graph.Valid() && pathCalc.startNode == old(pathCalc.startNode)
      invariant RoutesOk(pathCalc.routes, |graph.items|)
      invariant graph.nodes == old(graph.nodes)
      invariant i > 0 ==> pathCalc.endNode == ends[i - 1]
      invariant RunsDefined(Runs(graph.items, pathCalc.routes), pathCalc.startNode, ends, i)
      invariant RunAll(Runs(graph.items, pathCalc.routes), pathCalc.startNode, ends, i) ==
                RunAll(r0, pathCalc.startNode, ends, 0)
    {
      pathCalc.CalcOneRoute(ends[i]);
      i := i + 1;
    }
  }

  /** `LookUpOptimalRoute(start_point, end_point, routes)` without its printing:
      the price and the names of the cheapest route. */
  method LookUpOptimalRoute(startPoint: string, endPoint: string, edges: seq<RouteItem>)
    returns (price: int, description: seq<string>)
    requires LookUpDefined(startPoint, endPoint, edges)
    ensures var r := LookUpRuns(startPoint, endPoint, edges);
            RoutesOk(r.routes, |r.items|) && r.routes != [] &&
            var m := PriceMap(r.items, r.routes, |r.routes|);
            price in m && description == m[price] && forall k :: k in m ==> price <= k
    ensures var r := LookUpRuns(startPoint, endPoint, edges);
            RoutesOk(r.routes, |r.items|) && r.routes != [] &&
            var i := FirstMin(r.items, r.routes, |r.routes|);
            price == RouteTotal(r.items, r.routes[i]) && description == RouteNames(r.items, r.routes[i])
  {
    var pathCalc, endList := Prepare(startPoint, endPoint, edges);
    RunEach(pathCalc, endList);
    var graph := pathCalc.graph;
    assert Runs(graph.items, pathCalc.routes) == LookUpRuns(startPoint, endPoint, edges);
    var pmap := PriceRoutes(graph.items, pathCalc.routes);
    MapBeginIsFirstMin(graph.items, pathCalc.routes);
    price := MinKey(pmap);
    description := pmap[price];
  }
}
