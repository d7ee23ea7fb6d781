/** The value `PathCalculator::CalcWeights` computes: sort the node's neighbours,
    try `SetWeight` on each of them once per recorded route that ends at a node
    carrying the current node's name, mark the node passed, then descend into the
    neighbours that are still unpassed, depth first and in sorted order. */
module Relaxation {
  import opened GraphItems
  import opened Sorting

  /** The number of nodes not yet marked passed: the measure that makes the
      depth-first descent terminate. */
  function Unpassed(items: seq<Item>): nat
    decreases |items|
  {
    if items == [] then 0
    else Unpassed(items[..|items| - 1]) + (if items[|items| - 1].isPassed then 0 else 1)
  }

  /** The visited flag never goes from true back to false. */
  ghost predicate PassedGrows(a: seq<Item>, b: seq<Item>) {
    |b| == |a| && forall i :: 0 <= i < |a| ==> a[i].isPassed ==> b[i].isPassed
  }

  lemma {:induction false} UnpassedMono(a: seq<Item>, b: seq<Item>)
    requires PassedGrows(a, b)
    ensures Unpassed(b) <= Unpassed(a)
    decreases |a|
  {
    if a != [] {
      var n := |a| - 1;
      assert PassedGrows(a[..n], b[..n]) by {
        forall i | 0 <= i < n ensures a[..n][i].isPassed ==> b[..n][i].isPassed {
          assert a[..n][i] == a[i] && b[..n][i] == b[i];
        }
      }
      UnpassedMono(a[..n], b[..n]);
    }
  }

  /** Marking one more node passed strictly lowers the count. */
  lemma {:induction false} UnpassedDrop(a: seq<Item>, b: seq<Item>, i: nat)
    requires PassedGrows(a, b) && i < |a| && !a[i].isPassed && b[i].isPassed
    ensures Unpassed(b) < Unpassed(a)
    decreases |a|
  {
    var n := |a| - 1;
    assert PassedGrows(a[..n], b[..n]) by {
      forall j | 0 <= j < n ensures a[..n][j].isPassed ==> b[..n][j].isPassed {
        assert a[..n][j] == a[j] && b[..n][j] == b[j];
      }
    }
    if i == n {
      UnpassedMono(a[..n], b[..n]);
    } else {
      assert a[..n][i] == a[i] && b[..n][i] == b[i];
      UnpassedDrop(a[..n], b[..n], i);
    }
  }

  /** The last node of a recorded route (`path.back()`). */
  function Last(p: seq<nat>): nat
    requires p != []
  {
    p[|p| - 1]
  }

  /** Every recorded route is a non-empty list of nodes of the arena. */
  ghost predicate RoutesOk(routes: seq<seq<nat>>, n: nat) {
    forall k :: 0 <= k < |routes| ==> routes[k] != [] && AllBelow(routes[k], n)
  }

  /** What relaxation never touches: the arena's size, and every node's name,
      visited flag and neighbour list. */
  ghost predicate SameShape(a: seq<Item>, b: seq<Item>) {
    |b| == |a| &&
    forall i :: 0 <= i < |a| ==>
      b[i].name == a[i].name && b[i].isPassed == a[i].isPassed && b[i].neighbours == a[i].neighbours
  }

  /** The inner loop over the routes, from the `k`-th on, for neighbour `g` with
      candidate weight `w`: one `SetWeight` per route whose last node carries the
      current node's name. */
  function RelaxRoutes(items: seq<Item>, node: nat, g: nat, w: int, routes: seq<seq<nat>>, k: nat): (r: seq<Item>)
    requires node < |items| && g < |items| && RoutesOk(routes, |items|) && k <= |routes|
    ensures |r| == |items|
    decreases |routes| - k
  {
    if k == |routes| then items
    else
      var s := if items[Last(routes[k])].name == items[node].name then SetWeightOf(items, g, w, node)
               else items;
      RelaxRoutes(s, node, g, w, routes, k + 1)
  }

  /** Relaxation changes only weights, parents and snapshots, and keeps the arena
      well formed. */
  lemma {:induction false} RelaxRoutesShape(items: seq<Item>, node: nat, g: nat, w: int,
                                            routes: seq<seq<nat>>, k: nat)
    requires node < |items| && g < |items| && RoutesOk(routes, |items|) && k <= |routes|
    ensures SameShape(items, RelaxRoutes(items, node, g, w, routes, k))
    ensures Wf(items) ==> Wf(RelaxRoutes(items, node, g, w, routes, k))
    decreases |routes| - k
  {
    if k < |routes| {
      var s := if items[Last(routes[k])].name == items[node].name then SetWeightOf(items, g, w, node)
               else items;
      RelaxRoutesShape(s, node, g, w, routes, k + 1);
    }
  }

  /** The first loop of `CalcWeights` over the sorted neighbours `ns`, from the
      `i`-th on; the candidate weight is the current node's weight plus the
      neighbour's, both read when the neighbour's turn comes. */
  function RelaxAll(items: seq<Item>, node: nat, ns: seq<nat>, i: nat, routes: seq<seq<nat>>): (r: seq<Item>)
    requires node < |items| && AllBelow(ns, |items|) && RoutesOk(routes, |items|) && i <= |ns|
    ensures |r| == |items|
    decreases |ns| - i
  {
    if i == |ns| then items
    else
      var s := RelaxRoutes(items, node, ns[i], items[node].weight + items[ns[i]].weight, routes, 0);
      RelaxAll(s, node, ns, i + 1, routes)
  }

  lemma {:induction false} RelaxAllShape(items: seq<Item>, node: nat, ns: seq<nat>, i: nat, routes: seq<seq<nat>>)
    requires node < |items| && AllBelow(ns, |items|) && RoutesOk(routes, |items|) && i <= |ns|
    ensures SameShape(items, RelaxAll(items, node, ns, i, routes))
    ensures Wf(items) ==> Wf(RelaxAll(items, node, ns, i, routes))
    decreases |ns| - i
  {
    if i < |ns| {
      var w := items[node].weight + items[ns[i]].weight;
      RelaxRoutesShape(items, node, ns[i], w, routes, 0);
      RelaxAllShape(RelaxRoutes(items, node, ns[i], w, routes, 0), node, ns, i + 1, routes);
    }
  }

  /** What a whole `CalcWeights` call keeps: the arena's size and every name, the
      visited flags only grow, and every neighbour list stays a permutation of itself. */
  ghost predicate Keeps(a: seq<Item>, b: seq<Item>) {
    PassedGrows(a, b) &&
    forall i :: 0 <= i < |a| ==>
      b[i].name == a[i].name && multiset(b[i].neighbours) == multiset(a[i].neighbours)
  }

  /** Nodes already passed in `a`, other than `except`, keep their neighbour list. */
  ghost predicate PassedFixed(a: seq<Item>, b: seq<Item>, except: int)
    requires |b| == |a|
  {
    forall i :: 0 <= i < |a| && i != except && a[i].isPassed ==> b[i].neighbours == a[i].neighbours
  }

  /** The node's own work: sort its neighbours, relax them, mark it passed. */
  function Visited(items: seq<Item>, routes: seq<seq<nat>>, node: nat): (r: seq<Item>)
    requires Wf(items) && node < |items| && RoutesOk(routes, |items|)
    ensures |r| == |items| && Wf(r)
    ensures Unpassed(r) <= Unpassed(items)
    ensures !items[node].isPassed ==> Unpassed(r) < Unpassed(items)
  {
    var sorted := SortByWeight(items, items[node].neighbours);
    var s1 := items[node := items[node].(neighbours := sorted)];
    var s2 := RelaxAll(s1, node, sorted, 0, routes);
    var r := s2[node := s2[node].(isPassed := true)];
    RelaxAllShape(s1, node, sorted, 0, routes);
    assert PassedGrows(items, r);
    UnpassedMono(items, r);
    if !items[node].isPassed then UnpassedDrop(items, r, node); r else r
  }

  /** The node is passed, its neighbours are the stable sort of what they were, and
      no other node changes its flag or its neighbours. */
  lemma VisitedFacts(items: seq<Item>, routes: seq<seq<nat>>, node: nat)
    requires Wf(items) && node < |items| && RoutesOk(routes, |items|)
    ensures Keeps(items, Visited(items, routes, node))
    ensures PassedFixed(items, Visited(items, routes, node), node)
    ensures Visited(items, routes, node)[node].isPassed
    ensures Visited(items, routes, node)[node].neighbours == SortByWeight(items, items[node].neighbours)
    ensures forall i :: 0 <= i < |items| && i != node ==>
              Visited(items, routes, node)[i].isPassed == items[i].isPassed &&
              Visited(items, routes, node)[i].neighbours == items[i].neighbours
  {
    var sorted := SortByWeight(items, items[node].neighbours);
    var s1 := items[node := items[node].(neighbours := sorted)];
    var s2 := RelaxAll(s1, node, sorted, 0, routes);
    var r := s2[node := s2[node].(isPassed := true)];
    assert r == Visited(items, routes, node);
    RelaxAllShape(s1, node, sorted, 0, routes);
    forall i | 0 <= i < |items| && i != node
      ensures r[i].isPassed == items[i].isPassed && r[i].neighbours == items[i].neighbours
      ensures r[i].name == items[i].name
    {
      assert r[i] == s2[i] && s1[i] == items[i];
    }
    assert r[node].neighbours == sorted && r[node].name == items[node].name;
  }

  /** `CalcWeights(node)` on the arena `items`, with the recorded `routes`. */
  function CalcWeightsOf(items: seq<Item>, routes: seq<seq<nat>>, node: nat): (r: seq<Item>)
    requires Wf(items) && node < |items| && RoutesOk(routes, |items|)
    ensures |r| == |items| && Wf(r)
    ensures Unpassed(r) <= Unpassed(items)
    decreases Unpassed(items), if items[node].isPassed then 2 else 0, 0
  {
    var s := Visited(items, routes, node);
    VisitAll(s, routes, s[node].neighbours, 0)
  }

  /** The second loop of `CalcWeights`, from the `i`-th neighbour on: descend into
      each neighbour that is not passed by the time its turn comes. */
  function VisitAll(items: seq<Item>, routes: seq<seq<nat>>, ns: seq<nat>, i: nat): (r: seq<Item>)
    requires Wf(items) && AllBelow(ns, |items|) && RoutesOk(routes, |items|) && i <= |ns|
    ensures |r| == |items| && Wf(r)
    ensures Unpassed(r) <= Unpassed(items)
    decreases Unpassed(items), 1, |ns| - i
  {
    if i == |ns| then items
    else
      var s := if items[ns[i]].isPassed then items else CalcWeightsOf(items, routes, ns[i]);
      VisitAll(s, routes, ns, i + 1)
  }

  lemma KeepsTrans(a: seq<Item>, b: seq<Item>, c: seq<Item>)
    requires Keeps(a, b) && Keeps(b, c)
    ensures Keeps(a, c)
  {
  }

  lemma FixedTrans(a: seq<Item>, b: seq<Item>, c: seq<Item>, e: int)
    requires PassedGrows(a, b) && |c| == |a| && PassedFixed(a, b, e) && PassedFixed(b, c, -1)
    ensures PassedFixed(a, c, e)
  {
  }

  /** A `CalcWeights` call leaves the node passed; flags only grow, names never
      change, every neighbour list stays a permutation of itself, and every other
      node that was already passed keeps its list. */
  lemma {:induction false} CalcWeightsKeeps(items: seq<Item>, routes: seq<seq<nat>>, node: nat)
    requires Wf(items) && node < |items| && RoutesOk(routes, |items|)
    ensures Keeps(items, CalcWeightsOf(items, routes, node))
    ensures PassedFixed(items, CalcWeightsOf(items, routes, node), node)
    ensures CalcWeightsOf(items, routes, node)[node].isPassed
    decreases Unpassed(items), if items[node].isPassed then 2 else 0, 0
  {
    var s := Visited(items, routes, node);
    VisitedFacts(items, routes, node);
    VisitAllKeeps(s, routes, s[node].neighbours, 0);
    var r := VisitAll(s, routes, s[node].neighbours, 0);
    KeepsTrans(items, s, r);
    FixedTrans(items, s, r, node);
  }

  /** The descent loop keeps what `CalcWeights` keeps, and every node passed before
      it keeps its neighbour list. */
  lemma {:induction false} VisitAllKeeps(items: seq<Item>, routes: seq<seq<nat>>, ns: seq<nat>, i: nat)
    requires Wf(items) && AllBelow(ns, |items|) && RoutesOk(routes, |items|) && i <= |ns|
    ensures Keeps(items, VisitAll(items, routes, ns, i))
    ensures PassedFixed(items, VisitAll(items, routes, ns, i), -1)
    decreases Unpassed(items), 1, |ns| - i
  {
    if i < |ns| {
      if items[ns[i]].isPassed {
        VisitAllKeeps(items, routes, ns, i + 1);
      } else {
        var s := CalcWeightsOf(items, routes, ns[i]);
        CalcWeightsKeeps(items, routes, ns[i]);
        VisitAllKeeps(s, routes, ns, i + 1);
        var r := VisitAll(s, routes, ns, i + 1);
        KeepsTrans(items, s, r);
        FixedTrans(items, s, r, -1);
      }
    }
  }

  /** Every neighbour the descent loop reaches is passed once it is over. */
  lemma {:induction false} VisitAllPasses(items: seq<Item>, routes: seq<seq<nat>>, ns: seq<nat>, i: nat)
    requires Wf(items) && AllBelow(ns, |items|) && RoutesOk(routes, |items|) && i <= |ns|
    ensures forall k :: i <= k < |ns| ==> VisitAll(items, routes, ns, i)[ns[k]].isPassed
    decreases |ns| - i
  {
    if i < |ns| {
      var s := if items[ns[i]].isPassed then items else CalcWeightsOf(items, routes, ns[i]);
      if !items[ns[i]].isPassed {
        CalcWeightsKeeps(items, routes, ns[i]);
      }
      VisitAllPasses(s, routes, ns, i + 1);
      VisitAllKeeps(s, routes, ns, i + 1);
    }
  }

  /** A `CalcWeights` call leaves the node passed with its neighbours stably sorted and
      all of them passed; flags only grow, names never change, every neighbour list
      stays a permutation of itself, and every other node that was already passed
      keeps its list. */
  lemma CalcWeightsFacts(items: seq<Item>, routes: seq<seq<nat>>, node: nat)
    requires Wf(items) && node < |items| && RoutesOk(routes, |items|)
    ensures Keeps(items, CalcWeightsOf(items, routes, node))
    ensures PassedFixed(items, CalcWeightsOf(items, routes, node), node)
    ensures CalcWeightsOf(items, routes, node)[node].isPassed
    ensures CalcWeightsOf(items, routes, node)[node].neighbours == SortByWeight(items, items[node].neighbours)
    ensures forall k :: 0 <= k < |CalcWeightsOf(items, routes, node)[node].neighbours| ==>
              CalcWeightsOf(items, routes, node)[CalcWeightsOf(items, routes, node)[node].neighbours[k]].isPassed
  {
    CalcWeightsKeeps(items, routes, node);
    var s := Visited(items, routes, node);
    VisitedFacts(items, routes, node);
    VisitAllKeeps(s, routes, s[node].neighbours, 0);
    VisitAllPasses(s, routes, s[node].neighbours, 0);
  }

  // ---------------------------------------------------------------------------
  // The gate: weights and parents move only through a route-end-named parent.

  /** Some recorded route ends at a node named `n`. */
  ghost predicate EndName(items: seq<Item>, routes: seq<seq<nat>>, n: string) {
    exists p :: p in routes && p != [] && Last(p) < |items| && items[Last(p)].name == n
  }

  /** Weight, parent and parent-weight snapshot are the same. */
  ghost predicate SameWeights(x: Item, y: Item) {
    x.weight == y.weight && x.parent == y.parent && x.weightParent == y.weightParent
  }

  /** Every node whose weight, parent or snapshot differs between `a` and `b` has, in
      `b`, a parent that carries the name of the last node of some recorded route. */
  ghost predicate Gated(a: seq<Item>, b: seq<Item>, routes: seq<seq<nat>>) {
    |b| == |a| &&
    forall i :: 0 <= i < |a| && !SameWeights(a[i], b[i]) ==>
      0 <= b[i].parent < |a| && EndName(a, routes, a[b[i].parent].name)
  }

  ghost predicate SameNames(a: seq<Item>, b: seq<Item>) {
    |b| == |a| && forall i :: 0 <= i < |a| ==> b[i].name == a[i].name
  }

  lemma {:induction false} RelaxRoutesGated(a: seq<Item>, items: seq<Item>, node: nat, g: nat, w: int,
                                            routes: seq<seq<nat>>, k: nat)
    requires Wf(items) && node < |items| && g < |items| && RoutesOk(routes, |items|) && k <= |routes|
    requires SameNames(a, items) && Gated(a, items, routes)
    ensures Gated(a, RelaxRoutes(items, node, g, w, routes, k), routes)
    decreases |routes| - k
  {
    if k < |routes| {
      var s := if items[Last(routes[k])].name == items[node].name then SetWeightOf(items, g, w, node)
               else items;
      if items[Last(routes[k])].name == items[node].name {
        assert routes[k] in routes;
        assert EndName(a, routes, a[node].name);
      }
      RelaxRoutesGated(a, s, node, g, w, routes, k + 1);
    }
  }

  lemma {:induction false} RelaxAllGated(a: seq<Item>, items: seq<Item>, node: nat, ns: seq<nat>, i: nat,
                                         routes: seq<seq<nat>>)
    requires Wf(items) && node < |items| && AllBelow(ns, |items|) && RoutesOk(routes, |items|)
    requires i <= |ns| && SameNames(a, items) && Gated(a, items, routes)
    ensures Gated(a, RelaxAll(items, node, ns, i, routes), routes)
    decreases |ns| - i
  {
    if i < |ns| {
      var w := items[node].weight + items[ns[i]].weight;
      RelaxRoutesGated(a, items, node, ns[i], w, routes, 0);
      RelaxRoutesShape(items, node, ns[i], w, routes, 0);
      RelaxAllGated(a, RelaxRoutes(items, node, ns[i], w, routes, 0), node, ns, i + 1, routes);
    }
  }

  lemma VisitedGated(a: seq<Item>, items: seq<Item>, routes: seq<seq<nat>>, node: nat)
    requires Wf(items) && node < |items| && RoutesOk(routes, |items|)
    requires SameNames(a, items) && Gated(a, items, routes)
    ensures Gated(a, Visited(items, routes, node), routes)
  {
    var sorted := SortByWeight(items, items[node].neighbours);
    var s1 := items[node := items[node].(neighbours := sorted)];
    RelaxAllGated(a, s1, node, sorted, 0, routes);
  }

  lemma {:induction false} CalcWeightsGated(a: seq<Item>, items: seq<Item>, routes: seq<seq<nat>>, node: nat)
    requires Wf(items) && node < |items| && RoutesOk(routes, |items|)
    requires SameNames(a, items) && Gated(a, items, routes)
    ensures Gated(a, CalcWeightsOf(items, routes, node), routes)
    decreases Unpassed(items), if items[node].isPassed then 2 else 0, 0
  {
    VisitedGated(a, items, routes, node);
    VisitedFacts(items, routes, node);
    var s := Visited(items, routes, node);
    VisitAllGated(a, s, routes, s[node].neighbours, 0);
  }

  lemma {:induction false} VisitAllGated(a: seq<Item>, items: seq<Item>, routes: seq<seq<nat>>,
                                         ns: seq<nat>, i: nat)
    requires Wf(items) && AllBelow(ns, |items|) && RoutesOk(routes, |items|) && i <= |ns|
    requires SameNames(a, items) && Gated(a, items, routes)
    ensures Gated(a, VisitAll(items, routes, ns, i), routes)
    decreases Unpassed(items), 1, |ns| - i
  {
    if i < |ns| {
      var s := if items[ns[i]].isPassed then items else CalcWeightsOf(items, routes, ns[i]);
      if !items[ns[i]].isPassed {
        CalcWeightsGated(a, items, routes, ns[i]);
        CalcWeightsFacts(items, routes, ns[i]);
      }
      VisitAllGated(a, s, routes, ns, i + 1);
    }
  }

  /** `CalcWeights` changes a node's weight, parent or snapshot only by making it the
      child of a node named like the end of a recorded route. */
  lemma CalcWeightsGate(items: seq<Item>, routes: seq<seq<nat>>, node: nat)
    requires Wf(items) && node < |items| && RoutesOk(routes, |items|)
    ensures forall i :: 0 <= i < |items| && !SameWeights(items[i], CalcWeightsOf(items, routes, node)[i]) ==>
              0 <= CalcWeightsOf(items, routes, node)[i].parent < |items| &&
              EndName(items, routes, items[CalcWeightsOf(items, routes, node)[i].parent].name)
  {
    CalcWeightsGated(items, items, routes, node);
  }

  /** With no route recorded yet, `CalcWeights` changes no weight, parent or snapshot. */
  lemma FirstPassKeepsWeights(items: seq<Item>, node: nat)
    requires Wf(items) && node < |items|
    ensures forall i :: 0 <= i < |items| ==> SameWeights(items[i], CalcWeightsOf(items, [], node)[i])
  {
    CalcWeightsGate(items, [], node);
  }

  // ---------------------------------------------------------------------------
  // The descent: every node reachable from a passed node ends up passed.

  /** Every passed node outside `open` has only passed neighbours. */
  ghost predicate ClosedExcept(items: seq<Item>, open: set<nat>)
    requires Wf(items)
  {
    forall i, k ::
      (0 <= i < |items| && items[i].isPassed && i !in open && 0 <= k < |items[i].neighbours|) ==>
      items[items[i].neighbours[k]].isPassed
  }

  lemma {:induction false} CalcWeightsClosed(items: seq<Item>, routes: seq<seq<nat>>, node: nat, open: set<nat>)
    requires Wf(items) && node < |items| && RoutesOk(routes, |items|)
    requires ClosedExcept(items, open)
    ensures ClosedExcept(CalcWeightsOf(items, routes, node), open)
    decreases Unpassed(items), if items[node].isPassed then 2 else 0, 0
  {
    var s := Visited(items, routes, node);
    VisitedFacts(items, routes, node);
    assert ClosedExcept(s, open + {node});
    VisitAllClosed(s, routes, s[node].neighbours, 0, open + {node});
    CalcWeightsFacts(items, routes, node);
  }

  lemma {:induction false} VisitAllClosed(items: seq<Item>, routes: seq<seq<nat>>, ns: seq<nat>, i: nat,
                                          open: set<nat>)
    requires Wf(items) && AllBelow(ns, |items|) && RoutesOk(routes, |items|) && i <= |ns|
    requires ClosedExcept(items, open)
    ensures ClosedExcept(VisitAll(items, routes, ns, i), open)
    decreases Unpassed(items), 1, |ns| - i
  {
    if i < |ns| {
      var s := if items[ns[i]].isPassed then items else CalcWeightsOf(items, routes, ns[i]);
      if !items[ns[i]].isPassed {
        CalcWeightsClosed(items, routes, ns[i], open);
        CalcWeightsFacts(items, routes, ns[i]);
      }
      VisitAllClosed(s, routes, ns, i + 1, open);
    }
  }

  /** `to` is reached from `from` by following exactly `steps` neighbour links. */
  ghost predicate ReachableIn(items: seq<Item>, from: nat, to: nat, steps: nat)
    requires Wf(items) && from < |items|
    decreases steps
  {
    if steps == 0 then from == to
    else exists k :: 0 <= k < |items[from].neighbours| &&
                     ReachableIn(items, items[from].neighbours[k], to, steps - 1)
  }

  lemma {:induction false} ClosedReach(items: seq<Item>, from: nat, to: nat, steps: nat)
    requires Wf(items) && from < |items| && ClosedExcept(items, {}) && items[from].isPassed
    requires ReachableIn(items, from, to, steps)
    ensures to < |items| && items[to].isPassed
    decreases steps
  {
    if steps > 0 {
      var k :| 0 <= k < |items[from].neighbours| &&
               ReachableIn(items, items[from].neighbours[k], to, steps - 1);
      ClosedReach(items, items[from].neighbours[k], to, steps - 1);
    }
  }

  /** Starting from a state where passed nodes have only passed neighbours (for one,
      the freshly built graph, where nothing is passed), `CalcWeights(start)` keeps
      that so and leaves every node reachable from `start` passed. */
  lemma CalcWeightsVisitsReachable(items: seq<Item>, routes: seq<seq<nat>>, start: nat)
    requires Wf(items) && start < |items| && RoutesOk(routes, |items|)
    requires ClosedExcept(items, {})
    ensures ClosedExcept(CalcWeightsOf(items, routes, start), {})
    ensures forall to: nat, steps: nat :: ReachableIn(CalcWeightsOf(items, routes, start), start, to, steps) ==>
              to < |items| && CalcWeightsOf(items, routes, start)[to].isPassed
  {
    var r := CalcWeightsOf(items, routes, start);
    CalcWeightsClosed(items, routes, start, {});
    CalcWeightsFacts(items, routes, start);
    forall to: nat, steps: nat | ReachableIn(r, start, to, steps) ensures to < |items| && r[to].isPassed {
      ClosedReach(r, start, to, steps);
    }
  }
}
