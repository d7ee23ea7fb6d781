/** Route-graph nodes (GraphItem) as records in an arena.
    Every node ever allocated lives in a `seq<Item>` and is addressed by its
    index; the parent pointer is an index too, with `NoParent` standing for NULL. */
module GraphItems {

  const NoParent: int := -1

  /** One location node: its name, the weight of the edge that reaches it,
      the weight its parent had when the edge was recorded, the visited flag,
      the parent pointer and the ordered list of outgoing neighbours. */
  datatype Item = Item(name: string, weight: int, weightParent: int, isPassed: bool,
                       parent: int, neighbours: seq<nat>)

  /** A freshly allocated node (`new GraphItem()` followed by setting its name). */
  function Blank(name: string): (it: Item)
    ensures it.name == name && it.neighbours == [] && !it.isPassed
    ensures it.weight == -1 && it.weightParent == -1 && it.parent == NoParent
  {
    Item(name, -1, -1, false, NoParent, [])
  }

  /** Every pointer held by a node refers to a node of the arena. */
  predicate AllBelow(ns: seq<nat>, n: nat) {
    forall j :: 0 <= j < |ns| ==> ns[j] < n
  }

  /** No node appears twice in the list. */
  ghost predicate NoDup(ns: seq<nat>) {
    forall j, k :: 0 <= j < k < |ns| ==> ns[j] != ns[k]
  }

  lemma NoDupTail(ns: seq<nat>)
    requires ns != []
    ensures NoDup(ns) ==> NoDup(ns[1..]) && ns[0] !in ns[1..]
  {
    if NoDup(ns) {
      forall j | 0 <= j < |ns| - 1 ensures ns[1..][j] != ns[0] {
        assert ns[1..][j] == ns[j + 1];
      }
    }
  }

  ghost predicate WfItem(it: Item, n: nat) {
    NoParent <= it.parent < n && AllBelow(it.neighbours, n)
  }

  ghost predicate Wf(items: seq<Item>) {
    forall i :: 0 <= i < |items| ==> WfItem(items[i], |items|)
  }

  /** `a->AddNeighbour(g, wgt)`: the target takes the edge weight, `a` as parent and
      `a`'s weight (read after the first write, which matters when `g` is `a`);
      `g` is appended to `a`'s neighbours. */
  function AddNeighbourOf(items: seq<Item>, a: nat, g: nat, wgt: int): (r: seq<Item>)
    requires a < |items| && g < |items|
    ensures |r| == |items|
    ensures r[g].weight == wgt && r[g].parent == a
    ensures r[g].weightParent == if g == a then wgt else items[a].weight
    ensures r[a].neighbours == items[a].neighbours + [g]
    ensures g != a ==> r[g].neighbours == items[g].neighbours
    ensures a != g ==> r[a].(neighbours := items[a].neighbours) == items[a]
    ensures r[g].name == items[g].name && r[g].isPassed == items[g].isPassed
    ensures forall j :: 0 <= j < |items| && j != a && j != g ==> r[j] == items[j]
    ensures Wf(items) ==> Wf(r)
  {
    var s1 := items[g := items[g].(weight := wgt)];
    var s2 := s1[g := s1[g].(parent := a)];
    var s3 := s2[g := s2[g].(weightParent := s2[a].weight)];
    s3[a := s3[a].(neighbours := s3[a].neighbours + [g])]
  }

  /** The guard of `SetWeight`: a weight of zero or less counts as "not set yet". */
  predicate Accepts(it: Item, w: int) {
    it.weight <= 0 || w < it.weight
  }

  /** `g->SetWeight(w, p)`: when the guard accepts `w`, the weight becomes `w`, the
      parent becomes `p` and the parent-weight snapshot takes `p`'s weight read after
      the first write; otherwise nothing changes. */
  function SetWeightOf(items: seq<Item>, g: nat, w: int, p: nat): (r: seq<Item>)
    requires g < |items| && p < |items|
    ensures |r| == |items|
    ensures !Accepts(items[g], w) ==> r == items
    ensures Accepts(items[g], w) ==>
      r[g] == items[g].(weight := w, parent := p,
                        weightParent := if g == p then w else items[p].weight)
    ensures forall j :: 0 <= j < |items| && j != g ==> r[j] == items[j]
    ensures Wf(items) ==> Wf(r)
  {
    if Accepts(items[g], w) then
      var s1 := items[g := items[g].(weight := w)];
      var s2 := s1[g := s1[g].(weightParent := s1[p].weight)];
      s2[g := s2[g].(parent := p)]
    else
      items
  }

  /** What `std::find_if` is asked to look for. */
  datatype Query = ByName(name: string) | ByNameWeight(name: string, weight: int)

  predicate Matches(q: Query, it: Item) {
    match q
    case ByName(n) => it.name == n
    case ByNameWeight(n, w) => it.name == n && it.weight == w
  }

  /** `std::find_if` over a list of node pointers: the position of the first node
      that matches, or the length of the list when none does (the `end()` iterator). */
  function Position(items: seq<Item>, ns: seq<nat>, q: Query): (k: nat)
    requires AllBelow(ns, |items|)
    ensures k <= |ns|
    ensures forall j :: 0 <= j < k ==> !Matches(q, items[ns[j]])
    ensures k < |ns| ==> Matches(q, items[ns[k]])
    decreases |ns|
  {
    if ns == [] then 0
    else if Matches(q, items[ns[0]]) then 0
    else 1 + Position(items, ns[1..], q)
  }

  /** `a->GetWight(g)`: the weight of the first neighbour of `a` that carries `g`'s
      name, or -1 when `a` has no such neighbour. */
  function GetWight(items: seq<Item>, a: nat, g: nat): (w: int)
    requires Wf(items) && a < |items| && g < |items|
    ensures (forall k :: 0 <= k < |items[a].neighbours| ==>
               items[items[a].neighbours[k]].name != items[g].name) ==> w == -1
    ensures forall k :: 0 <= k < |items[a].neighbours| &&
               items[items[a].neighbours[k]].name == items[g].name &&
               (forall j :: 0 <= j < k ==> items[items[a].neighbours[j]].name != items[g].name)
               ==> w == items[items[a].neighbours[k]].weight
  {
    var ns := items[a].neighbours;
    var k := Position(items, ns, ByName(items[g].name));
    if k < |ns| then items[ns[k]].weight else -1
  }
}
