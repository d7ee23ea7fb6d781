/** The graph builder: the loop of `LookUpOptimalRoute` that turns the list of
    priced connections into nodes and edges.  The functions give the value each
    step produces; `BuildGraph` is the loop itself, proved to produce `BuildOf`. */
module Builder {
  import opened GraphItems
  import opened Graphs

  /** One priced connection `startPoint -> endPoint` (RouteItem). */
  datatype RouteItem = RouteItem(startPoint: string, endPoint: string, price: int)

  /** No node has been visited: the builder never touches `isPassed`. */
  ghost predicate NonePassed(items: seq<Item>) {
    forall i :: 0 <= i < |items| ==> !items[i].isPassed
  }

  /** What every builder step keeps: nodes are only appended to the arena and to the
      list, and no node changes its name. */
  ghost predicate Grows(s: GraphState, r: GraphState) {
    |s.items| <= |r.items| && |s.nodes| <= |r.nodes| && r.nodes[..|s.nodes|] == s.nodes &&
    forall i :: 0 <= i < |s.items| ==> r.items[i].name == s.items[i].name
  }

  lemma GrowsTrans(a: GraphState, b: GraphState, c: GraphState)
    requires Grows(a, b) && Grows(b, c)
    ensures Grows(a, c)
  {
    assert c.nodes[..|a.nodes|] == c.nodes[..|b.nodes|][..|a.nodes|];
    forall i | 0 <= i < |a.items| ensures c.items[i].name == a.items[i].name {
      assert b.items[i].name == a.items[i].name;
    }
  }

  /** Some listed node is named `name` and still has the default weight -1, so
      `Add` refuses a new node of that name. */
  ghost predicate BlankListed(s: GraphState, name: string)
    requires AllBelow(s.nodes, |s.items|)
  {
    exists k :: 0 <= k < |s.nodes| && s.items[s.nodes[k]].name == name && s.items[s.nodes[k]].weight == -1
  }

  /** `new GraphItem()` named `name` followed by `graph->Add` of it. */
  function AllocAdd(s: GraphState, name: string): (r: GraphState)
    requires s.Wf()
    ensures r.Wf() && Grows(s, r)
    ensures r.items == s.items + [Blank(name)]
    ensures BlankListed(s, name) ==> r.nodes == s.nodes
    ensures !BlankListed(s, name) ==> r.nodes == s.nodes + [|s.items|]
    ensures NonePassed(s.items) ==> NonePassed(r.items)
  {
    var a := GraphState(s.items + [Blank(name)], s.nodes);
    assert forall i :: 0 <= i < |s.items| ==> a.items[i] == s.items[i];
    assert forall k :: 0 <= k < |s.nodes| ==> a.items[a.nodes[k]] == s.items[s.nodes[k]];
    assert a.Wf();
    var r := AddOf(a, |s.items|);
    assert r.nodes[..|s.nodes|] == s.nodes;
    r
  }

  /** The destination `g_to` chosen for connection `e`: the first listed node with
      the destination's name and the connection's price, or else the node about to
      be allocated. */
  function Dest(s: GraphState, e: RouteItem): (t: nat)
    requires AllBelow(s.nodes, |s.items|)
    ensures t <= |s.items|
    ensures t < |s.items| <==>
      exists k :: 0 <= k < |s.nodes| && s.items[s.nodes[k]].name == e.endPoint
                                     && s.items[s.nodes[k]].weight == e.price
    ensures t < |s.items| ==>
      t in s.nodes && s.items[t].name == e.endPoint && s.items[t].weight == e.price
  {
    var k := Position(s.items, s.nodes, ByNameWeight(e.endPoint, e.price));
    if k < |s.nodes| then s.nodes[k] else |s.items|
  }

  /** One connection from origin `from`: find or create the destination, then
      `from->AddNeighbour(dest, price)`. */
  function LinkOne(s: GraphState, from: nat, e: RouteItem): (r: GraphState)
    requires s.Wf() && from < |s.items|
    ensures r.Wf() && Grows(s, r)
    ensures |r.items| == |s.items| + (if Dest(s, e) < |s.items| then 0 else 1)
    ensures r.items[from].neighbours == s.items[from].neighbours + [Dest(s, e)]
    ensures r.items[Dest(s, e)].name == e.endPoint
    ensures r.items[Dest(s, e)].weight == e.price && r.items[Dest(s, e)].parent == from
    ensures forall i :: 0 <= i < |s.items| && i != from ==>
              r.items[i].neighbours == s.items[i].neighbours
    ensures NonePassed(s.items) ==> NonePassed(r.items)
  {
    var t := Dest(s, e);
    var s1 := if t < |s.items| then s else AllocAdd(s, e.endPoint);
    var r := s1.(items := AddNeighbourOf(s1.items, from, t, e.price));
    assert r.nodes == s1.nodes;
    r
  }

  /** The inner loop over several same-named origins: each one, in list order, gets
      the connection. */
  function LinkEach(s: GraphState, origins: seq<nat>, e: RouteItem): (r: GraphState)
    requires s.Wf() && AllBelow(origins, |s.items|)
    ensures r.Wf() && Grows(s, r)
    ensures NonePassed(s.items) ==> NonePassed(r.items)
    decreases |origins|
  {
    if origins == [] then s
    else
      var n := |origins| - 1;
      var s1 := LinkEach(s, origins[..n], e);
      var r := LinkOne(s1, origins[n], e);
      GrowsTrans(s, s1, r);
      r
  }

  /** The first node `GetNode` returns is the one `find_if` by name finds. */
  lemma {:induction false} NamedInFirst(items: seq<Item>, nodes: seq<nat>, n: string)
    requires AllBelow(nodes, |items|)
    ensures var k := Position(items, nodes, ByName(n));
            (NamedIn(items, nodes, n) == [] <==> k == |nodes|) &&
            (k < |nodes| ==> NamedIn(items, nodes, n)[0] == nodes[k]) &&
            (|NamedIn(items, nodes, n)| == 1 && k < |nodes| ==> NamedIn(items, nodes, n) == [nodes[k]])
    decreases |nodes|
  {
    if nodes != [] && items[nodes[0]].name != n {
      NamedInFirst(items, nodes[1..], n);
    }
  }

  /** The origin `g_from` when at most one listed node carries the origin's name:
      the first such node, or else the node about to be allocated. */
  function OriginOf(s: GraphState, e: RouteItem): (o: nat)
    requires s.Wf()
    ensures o <= |s.items|
    ensures o < |s.items| ==> o in s.nodes && s.items[o].name == e.startPoint
    ensures o < |s.items| <==> exists k :: 0 <= k < |s.nodes| && s.items[s.nodes[k]].name == e.startPoint
    ensures o < |s.items| ==> o == NamedIn(s.items, s.nodes, e.startPoint)[0]
  {
    NamedInFirst(s.items, s.nodes, e.startPoint);
    var k := Position(s.items, s.nodes, ByName(e.startPoint));
    if k < |s.nodes| then s.nodes[k] else |s.items|
  }

  /** The graph once the origin exists: unchanged, or with the new origin allocated
      and handed to `Add`. */
  function WithOrigin(s: GraphState, e: RouteItem): (r: GraphState)
    requires s.Wf()
    ensures r.Wf() && Grows(s, r) && OriginOf(s, e) < |r.items|
    ensures NonePassed(s.items) ==> NonePassed(r.items)
  {
    if OriginOf(s, e) < |s.items| then s else AllocAdd(s, e.startPoint)
  }

  /** The body of the builder loop for one connection. */
  function StepEdge(s: GraphState, e: RouteItem): (r: GraphState)
    requires s.Wf()
    ensures r.Wf() && Grows(s, r)
    ensures NonePassed(s.items) ==> NonePassed(r.items)
  {
    var starts := NamedIn(s.items, s.nodes, e.startPoint);
    if |starts| > 1 then LinkEach(s, starts, e)
    else
      var s1 := WithOrigin(s, e);
      var r := LinkOne(s1, OriginOf(s, e), e);
      GrowsTrans(s, s1, r);
      r
  }

  function BuildFrom(s: GraphState, edges: seq<RouteItem>): (r: GraphState)
    requires s.Wf()
    ensures r.Wf() && Grows(s, r)
    ensures NonePassed(s.items) ==> NonePassed(r.items)
    decreases |edges|
  {
    if edges == [] then s
    else
      var s1 := StepEdge(s, edges[0]);
      var r := BuildFrom(s1, edges[1..]);
      GrowsTrans(s, s1, r);
      r
  }

  /** The graph built from the whole connection list, starting from an empty graph. */
  function BuildOf(edges: seq<RouteItem>): (r: GraphState)
    ensures r.Wf() && NonePassed(r.items)
  {
    BuildFrom(GraphState([], []), edges)
  }

  /** Origin `o` received exactly one new neighbour, named `name`, appended after
      the neighbours it had. */
  ghost predicate GotEdge(s: GraphState, r: GraphState, o: nat, name: string)
    requires r.Wf() && o < |s.items| <= |r.items|
  {
    var before := s.items[o].neighbours;
    var after := r.items[o].neighbours;
    |after| == |before| + 1 && after[..|before|] == before && r.items[after[|before|]].name == name
  }

  /** The node appended last to `o`'s neighbours carries the connection's price and
      has `o` as its parent. */
  ghost predicate LastEdgeFrom(r: GraphState, o: nat, price: int)
    requires r.Wf() && o < |r.items|
  {
    var after := r.items[o].neighbours;
    |after| > 0 && r.items[after[|after| - 1]].weight == price &&
    r.items[after[|after| - 1]].parent == o
  }

  lemma {:induction false} LinkEachUntouched(s: GraphState, origins: seq<nat>, e: RouteItem)
    requires s.Wf() && AllBelow(origins, |s.items|)
    ensures forall i :: 0 <= i < |s.items| && i !in origins ==>
              LinkEach(s, origins, e).items[i].neighbours == s.items[i].neighbours
    decreases |origins|
  {
    if origins != [] {
      var n := |origins| - 1;
      LinkEachUntouched(s, origins[..n], e);
      forall i | 0 <= i < |s.items| && i !in origins
        ensures i !in origins[..n] && i != origins[n]
      {
        assert origins == origins[..n] + [origins[n]];
      }
    }
  }

  /** The only nodes the inner loop allocates are destinations. */
  lemma {:induction false} LinkEachAllocates(s: GraphState, origins: seq<nat>, e: RouteItem)
    requires s.Wf() && AllBelow(origins, |s.items|)
    ensures forall i :: |s.items| <= i < |LinkEach(s, origins, e).items| ==>
              LinkEach(s, origins, e).items[i].name == e.endPoint
    decreases |origins|
  {
    if origins != [] {
      var n := |origins| - 1;
      var s1 := LinkEach(s, origins[..n], e);
      var r := LinkOne(s1, origins[n], e);
      LinkEachAllocates(s, origins[..n], e);
      forall i | |s.items| <= i < |r.items| ensures r.items[i].name == e.endPoint {
        if i >= |s1.items| {
          assert Dest(s1, e) == |s1.items| == i;
        } else {
          assert s1.items[i].name == e.endPoint;
          assert r.items[i].name == s1.items[i].name;
        }
      }
    }
  }

  /** With several same-named origins, each one gets exactly one new edge to a node
      named like the destination. */
  lemma {:induction false} LinkEachEveryOrigin(s: GraphState, origins: seq<nat>, e: RouteItem)
    requires s.Wf() && AllBelow(origins, |s.items|) && NoDup(origins)
    ensures forall j :: 0 <= j < |origins| ==>
              GotEdge(s, LinkEach(s, origins, e), origins[j], e.endPoint)
    decreases |origins|
  {
    if origins != [] {
      var n := |origins| - 1;
      var o := origins[n];
      var front := origins[..n];
      var s1 := LinkEach(s, front, e);
      var r := LinkOne(s1, o, e);
      LinkEachEveryOrigin(s, front, e);
      LinkEachUntouched(s, front, e);
      assert o !in front by {
        forall j | 0 <= j < n ensures front[j] != o { assert front[j] == origins[j]; }
      }
      forall j | 0 <= j < |origins| ensures GotEdge(s, r, origins[j], e.endPoint) {
        if j == n {
          assert s1.items[o].neighbours == s.items[o].neighbours;
          assert r.items[o].neighbours[..|s.items[o].neighbours|] == s.items[o].neighbours;
        } else {
          assert origins[j] == front[j];
          assert GotEdge(s, s1, front[j], e.endPoint);
          assert r.items[front[j]].neighbours == s1.items[front[j]].neighbours;
        }
      }
    }
  }

  lemma LinkOneLast(s: GraphState, o: nat, e: RouteItem)
    requires s.Wf() && o < |s.items|
    ensures LastEdgeFrom(LinkOne(s, o, e), o, e.price)
  {
    var r := LinkOne(s, o, e);
    assert r.items[o].neighbours[|r.items[o].neighbours| - 1] == Dest(s, e);
  }

  lemma LinkOneEffect(s: GraphState, o: nat, e: RouteItem)
    requires s.Wf() && o < |s.items|
    ensures GotEdge(s, LinkOne(s, o, e), o, e.endPoint)
    ensures LastEdgeFrom(LinkOne(s, o, e), o, e.price)
    ensures forall i :: |s.items| <= i < |LinkOne(s, o, e).items| ==>
              LinkOne(s, o, e).items[i].name == e.endPoint
  {
    var r := LinkOne(s, o, e);
    assert r.items[o].neighbours[..|s.items[o].neighbours|] == s.items[o].neighbours;
    LinkOneLast(s, o, e);
  }

  /** The inner loop's whole effect on distinct origins. */
  lemma LinkEachEffect(s: GraphState, origins: seq<nat>, e: RouteItem)
    requires s.Wf() && AllBelow(origins, |s.items|) && NoDup(origins) && origins != []
    ensures forall j :: 0 <= j < |origins| ==>
              GotEdge(s, LinkEach(s, origins, e), origins[j], e.endPoint)
    ensures LastEdgeFrom(LinkEach(s, origins, e), origins[|origins| - 1], e.price)
    ensures forall i :: |s.items| <= i < |LinkEach(s, origins, e).items| ==>
              LinkEach(s, origins, e).items[i].name == e.endPoint
  {
    LinkEachEveryOrigin(s, origins, e);
    LinkEachAllocates(s, origins, e);
    var n := |origins| - 1;
    LinkOneLast(LinkEach(s, origins[..n], e), origins[n], e);
  }

  /** One connection when exactly one listed node carries the origin's name: that
      node gets exactly one new edge, to a node named like the destination that
      carries the price and has it as parent. */
  lemma StepEdgeOneOrigin(s: GraphState, e: RouteItem)
    requires s.Wf() && |NamedIn(s.items, s.nodes, e.startPoint)| == 1
    ensures var o := NamedIn(s.items, s.nodes, e.startPoint)[0];
            GotEdge(s, StepEdge(s, e), o, e.endPoint) && LastEdgeFrom(StepEdge(s, e), o, e.price)
    ensures forall i :: |s.items| <= i < |StepEdge(s, e).items| ==>
              StepEdge(s, e).items[i].name == e.endPoint
  {
    NamedInFirst(s.items, s.nodes, e.startPoint);
    var o := OriginOf(s, e);
    assert WithOrigin(s, e) == s;
    LinkOneEffect(s, o, e);
  }

  /** One connection when several listed nodes carry the origin's name: each of them,
      in list order, gets exactly one new edge, and the last one is the parent of its
      new neighbour, which carries the price. */
  lemma StepEdgeManyOrigins(s: GraphState, e: RouteItem)
    requires s.Wf() && |NamedIn(s.items, s.nodes, e.startPoint)| > 1
    ensures var starts := NamedIn(s.items, s.nodes, e.startPoint);
            (forall j :: 0 <= j < |starts| ==>
               GotEdge(s, StepEdge(s, e), starts[j], e.endPoint)) &&
            LastEdgeFrom(StepEdge(s, e), starts[|starts| - 1], e.price)
    ensures forall i :: |s.items| <= i < |StepEdge(s, e).items| ==>
              StepEdge(s, e).items[i].name == e.endPoint
  {
    LinkEachEffect(s, NamedIn(s.items, s.nodes, e.startPoint), e);
  }

  /** When no listed node carries the origin's name, the new origin is listed. */
  lemma NewOriginListed(s: GraphState, e: RouteItem)
    requires s.Wf() && NamedIn(s.items, s.nodes, e.startPoint) == []
    ensures OriginOf(s, e) == |s.items|
    ensures WithOrigin(s, e) == GraphState(s.items + [Blank(e.startPoint)], s.nodes + [|s.items|])
  {
    NamedInFirst(s.items, s.nodes, e.startPoint);
    var f := |s.items|;
    var s0 := GraphState(s.items + [Blank(e.startPoint)], s.nodes);
    assert forall k :: 0 <= k < |s.nodes| ==> s.items[s.nodes[k]].name != e.startPoint;
    assert !KeyListed(s0, f) by {
      forall k | 0 <= k < |s0.nodes| ensures s0.items[s0.nodes[k]].name != e.startPoint {
        assert s0.items[s0.nodes[k]] == s.items[s.nodes[k]];
      }
    }
  }

  /** One connection whose origin name is not listed yet: a single new origin node is
      allocated and listed, and its only neighbour is the destination, which carries
      the price and has the new origin as parent. */
  lemma StepEdgeNewOrigin(s: GraphState, e: RouteItem)
    requires s.Wf() && NamedIn(s.items, s.nodes, e.startPoint) == []
    ensures |s.items| < |StepEdge(s, e).items|
    ensures StepEdge(s, e).items[|s.items|].name == e.startPoint
    ensures |s.items| in StepEdge(s, e).nodes
    ensures |StepEdge(s, e).items[|s.items|].neighbours| == 1
    ensures StepEdge(s, e).items[StepEdge(s, e).items[|s.items|].neighbours[0]].name == e.endPoint
    ensures LastEdgeFrom(StepEdge(s, e), |s.items|, e.price)
    ensures forall i :: |s.items| < i < |StepEdge(s, e).items| ==>
              StepEdge(s, e).items[i].name == e.endPoint
  {
    NewOriginListed(s, e);
    var f := |s.items|;
    var s1 := WithOrigin(s, e);
    var r := LinkOne(s1, f, e);
    assert StepEdge(s, e) == r;
    LinkOneEffect(s1, f, e);
    assert r.nodes[..|s1.nodes|] == s1.nodes;
    assert s1.nodes[|s.nodes|] == f;
  }

  /** Find the listed node with the destination's name and the connection's price,
      or allocate the destination and hand it to `Add`. */
  method FindOrAddDest(graph: Graph, e: RouteItem) returns (to: nat)
    requires graph.Valid()
    modifies graph
    ensures graph.Valid()
    ensures to == Dest(old(graph.State()), e)
    ensures graph.State() == if to < |old(graph.items)| then old(graph.State())
                             else AllocAdd(old(graph.State()), e.endPoint)
  {
    var k := Position(graph.items, graph.nodes, ByNameWeight(e.endPoint, e.price));
    if k < |graph.nodes| {
      to := graph.nodes[k];
    } else {
      to := graph.NewItem(e.endPoint);
      graph.Add(to);
    }
  }

  /** One connection from a known origin: find or create the destination, then
      `from->AddNeighbour(to, price)`. */
  method Connect(graph: Graph, from: nat, e: RouteItem)
    requires graph.Valid() && from < |graph.items|
    modifies graph
    ensures graph.Valid()
    ensures graph.State() == LinkOne(old(graph.State()), from, e)
  {
    ghost var s := graph.State();
    var to := FindOrAddDest(graph, e);
    graph.AddNeighbour(from, to, e.price);
    assert graph.items == LinkOne(s, from, e).items;
    assert graph.nodes == LinkOne(s, from, e).nodes;
  }

  /** The inner loop over several same-named origins. */
  method ConnectEach(graph: Graph, origins: seq<nat>, e: RouteItem)
    requires graph.Valid() && AllBelow(origins, |graph.items|)
    modifies graph
    ensures graph.Valid()
    ensures graph.State() == LinkEach(old(graph.State()), origins, e)
  {
    ghost var s := graph.State();
    var j := 0;
    while j < |origins|
      invariant 0 <= j <= |origins|
      invariant graph.Valid() && |s.items| <= |graph.items|
      invariant graph.State() == LinkEach(s, origins[..j], e)
    {
      ghost var front := origins[..j + 1];
      assert front[..j] == origins[..j] && front[j] == origins[j];
      assert AllBelow(front, |s.items|);
      Connect(graph, origins[j], e);
      assert graph.State() == LinkEach(s, front, e);
      j := j + 1;
    }
    assert origins[..|origins|] == origins;
  }

  /** The origin when at most one listed node carries its name: the first listed
      node of that name, or a new node handed to `Add`. */
  method FindOrAddOrigin(graph: Graph, e: RouteItem) returns (from: nat)
    requires graph.Valid()
    modifies graph
    ensures graph.Valid()
    ensures from == OriginOf(old(graph.State()), e)
    ensures graph.State() == WithOrigin(old(graph.State()), e)
  {
    var k := Position(graph.items, graph.nodes, ByName(e.startPoint));
    if k < |graph.nodes| {
      from := graph.nodes[k];
    } else {
      from := graph.NewItem(e.startPoint);
      graph.Add(from);
    }
  }

  /** The body of the builder loop for one connection. */
  method Step(graph: Graph, e: RouteItem)
    requires graph.Valid()
    modifies graph
    ensures graph.Valid()
    ensures graph.State() == StepEdge(old(graph.State()), e)
  {
    var startList := graph.GetNode(e.startPoint);
    if |startList| > 1 {
      ConnectEach(graph, startList, e);
    } else {
      var from := FindOrAddOrigin(graph, e);
      Connect(graph, from, e);
    }
  }

  /** The loop of `LookUpOptimalRoute` that builds the graph from the connections. */
  method BuildGraph(edges: seq<RouteItem>) returns (graph: Graph)
    ensures fresh(graph) && graph.Valid()
    ensures graph.State() == BuildOf(edges)
  {
    graph := new Graph();
    var i := 0;
    while i < |edges|
      invariant 0 <= i <= |edges|
      invariant graph.Valid()
      invariant BuildFrom(graph.State(), edges[i..]) == BuildOf(edges)
    {
      assert edges[i..][1..] == edges[i + 1..];
      Step(graph, edges[i]);
      i := i + 1;
    }
  }
}
