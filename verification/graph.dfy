/** The graph: the arena of every allocated node plus the list `nodes` of the
    nodes that were accepted by `Graph::Add`.  A node can be wired into the graph
    (someone's neighbour) without being listed, when `Add` refused it. */
module Graphs {
  import opened GraphItems

  /** The value of a graph: all allocated nodes and the listed ones, in list order. */
  datatype GraphState = GraphState(items: seq<Item>, nodes: seq<nat>) {
    ghost predicate Wf() {
      GraphItems.Wf(items) && AllBelow(nodes, |items|) &&
      NoDup(nodes)
    }
  }

  /** The listed node with `g`'s name and weight that `Graph::Add` looks for. */
  function SameKey(items: seq<Item>, g: nat): Query
    requires g < |items|
  {
    ByNameWeight(items[g].name, items[g].weight)
  }

  /** Some listed node has both `g`'s name and `g`'s weight. */
  ghost predicate KeyListed(s: GraphState, g: nat)
    requires AllBelow(s.nodes, |s.items|) && g < |s.items|
  {
    exists k :: 0 <= k < |s.nodes| && s.items[s.nodes[k]].name == s.items[g].name
                                   && s.items[s.nodes[k]].weight == s.items[g].weight
  }

  /** `graph->Add(g)`: append `g` unless a listed node has both its name and its weight. */
  function AddOf(s: GraphState, g: nat): (r: GraphState)
    requires AllBelow(s.nodes, |s.items|) && g < |s.items|
    ensures r.items == s.items
    ensures KeyListed(s, g) ==> r.nodes == s.nodes
    ensures !KeyListed(s, g) ==> r.nodes == s.nodes + [g]
  {
    if Position(s.items, s.nodes, SameKey(s.items, g)) < |s.nodes| then s
    else s.(nodes := s.nodes + [g])
  }

  /** `graph->GetNode(n)` as a value: the listed nodes named `n`, in list order. */
  function NamedIn(items: seq<Item>, nodes: seq<nat>, n: string): (r: seq<nat>)
    requires AllBelow(nodes, |items|)
    ensures |r| <= |nodes|
    ensures AllBelow(r, |items|)
    ensures forall j :: 0 <= j < |r| ==> items[r[j]].name == n
    ensures forall k :: 0 <= k < |nodes| && items[nodes[k]].name == n ==> nodes[k] in r
    ensures forall g :: g in r ==> g in nodes
    ensures NoDup(nodes) ==> NoDup(r)
    decreases |nodes|
  {
    if nodes == [] then []
    else
      var rest := NamedIn(items, nodes[1..], n);
      NoDupTail(nodes);
      if items[nodes[0]].name == n then [nodes[0]] + rest else rest
  }

  /** Graph::nodes together with the arena its pointers refer to. */
  class Graph {
    var items: seq<Item>
    var nodes: seq<nat>

    ghost function State(): GraphState
      reads this
    {
      GraphState(items, nodes)
    }

    ghost predicate Valid()
      reads this
    {
      State().Wf()
    }

    constructor ()
      ensures Valid() && items == [] && nodes == []
    {
      items, nodes := [], [];
    }

    /** `new GraphItem()` with its name set: a fresh, unlisted node. */
    method NewItem(name: string) returns (g: nat)
      requires Valid()
      modifies this
      ensures Valid()
      ensures g == |old(items)| && items == old(items) + [Blank(name)] && nodes == old(nodes)
    {
      g := |items|;
      items := items + [Blank(name)];
      assert forall i :: 0 <= i < g ==> items[i] == old(items)[i];
    }

    /** `GraphItem::AddNeighbour` on node `a`. */
    method AddNeighbour(a: nat, g: nat, wgt: int)
      requires Valid() && a < |items| && g < |items|
      modifies this
      ensures Valid() && nodes == old(nodes)
      ensures items == AddNeighbourOf(old(items), a, g, wgt)
    {
      items := items[g := items[g].(weight := wgt)];
      items := items[g := items[g].(parent := a)];
      items := items[g := items[g].(weightParent := items[a].weight)];
      items := items[a := items[a].(neighbours := items[a].neighbours + [g])];
    }

    /** `GraphItem::SetWeight` on node `g` with candidate weight `w` through parent `p`. */
    method SetWeight(g: nat, w: int, p: nat) returns (changed: bool)
      requires g < |items| && p < |items|
      modifies this
      ensures nodes == old(nodes)
      ensures changed == Accepts(old(items)[g], w)
      ensures items == SetWeightOf(old(items), g, w, p)
    {
      if Accepts(items[g], w) {
        items := items[g := items[g].(weight := w)];
        items := items[g := items[g].(weightParent := items[p].weight)];
        items := items[g := items[g].(parent := p)];
        return true;
      }
      return false;
    }

    /** `Graph::Add`. */
    method Add(g: nat)
      requires Valid() && g < |items|
      modifies this
      ensures Valid() && items == old(items)
      ensures State() == AddOf(old(State()), g)
    {
      var k := Position(items, nodes, SameKey(items, g));
      if k == |nodes| {
        nodes := nodes + [g];
      }
    }

    /** `Graph::GetNode`: every listed node named `n`, in list order. */
    method GetNode(n: string) returns (out: seq<nat>)
      requires Valid()
      ensures out == NamedIn(items, nodes, n)
    {
      out := [];
      var its, rest := items, nodes;
      while rest != []
        invariant AllBelow(rest, |its|)
        invariant out + NamedIn(its, rest, n) == NamedIn(items, nodes, n)
        decreases |rest|
      {
        if its[rest[0]].name == n {
          out := out + [rest[0]];
        }
        rest := rest[1..];
      }
    }
  }
}
