# CheapestRoute in Dafny

A model of the cheapest-route program in `main.cpp`, with proofs. The program takes three inputs:

- the name of a departure location;
- the name of an arrival location;
- a list of priced one-way connections (`RouteItem`).

It returns the price and the list of locations of the cheapest route it finds.

It works in three stages:

1. **Builder.** `LookUpOptimalRoute` builds a graph of `GraphItem` nodes from the connections.
   - A destination node is shared only when both its name and its price match.
   - A connection out of a name carried by several listed nodes is added to each of them.
2. **Runs.** The first node named like the departure is given weight zero. Then, for every listed node named like the arrival, `PathCalculator::CalcOneRoute` does three things:
   - it runs the depth-first relaxation `CalcWeights` from the start node;
   - it walks the parent pointers back from that end node (`GetCheapestWay`);
   - it records the resulting route.
3. **Reduction.** Every recorded route is priced by summing the weights its nodes hold at that moment. The routes go into a `std::map` keyed by price. `insert` keeps the first route seen for each price, and `begin()` gives the cheapest.

## Structure of the model

The model uses an arena for the nodes:

- every `GraphItem` ever allocated is an `Item` record in a `seq<Item>`;
- a pointer is an index into that sequence;
- a null parent is `-1`;
- `Graph::nodes` is a `seq<nat>` of indices.

Each part that mutates state is a class method, proved equal to a pure function of the old state. The properties of the source are then proved about those functions. The parts are:

- `Graph`;
- `PathCalculator` (its three loops are split into three methods);
- the builder loop;
- the loops of `LookUpOptimalRoute`.

| file | module | source |
|---|---|---|
| `graph_item.dfy` | `GraphItems` | `GraphItem`: `AddNeighbour`, `GetWight`, `SetWeight`, `find_if` |
| `graph.dfy` | `Graphs` | `Graph`: `Add`, `GetNode` |
| `builder.dfy` | `Builder` | the graph-building loop of `LookUpOptimalRoute` |
| `sort.dfy` | `Sorting` | the stable `std::list::sort` by weight |
| `relax.dfy` | `Relaxation` | what `CalcWeights` computes, and its properties |
| `path_calculator.dfy` | `PathCalculators` | `PathCalculator` |
| `lookup.dfy` | `LookUp` | start setup, one run per end node, and the price map |

### Where the code differs from the intended design

In each case below the model follows the code.

- **Weight guard.** The intended rule is that a node's cost is lowered only when no cost is set yet (weight -1) or the candidate is strictly lower. The code's guard is `weight <= 0 || w < weight`, so a weight of `0` counts as not set.
  - The start node has weight 0, so any relaxation reaching it is accepted.
  - A node reached by a zero-priced connection can have its weight raised.
  - `GraphItems.SetWeightOf` states the guard exactly as the code has it.
- **Relaxation gate.** The intended rule is that every neighbour is relaxed from the current node. The code calls `SetWeight` only once per recorded route whose last node has the current node's name.
  - With no route recorded, `CalcWeights` changes no weight, parent or snapshot (`Relaxation.FirstPassKeepsWeights`).
  - So the first route is read from the parent pointers the builder left.
- **Error results.** The intended behaviour is an error result for an unknown location and for an unreachable end. In the code these cases are undefined behaviour:
  - dereferencing the first element of an empty list;
  - walking a parent chain that never reaches the start;
  - calling `begin()` on an empty map.

  The model turns them into preconditions (`LookUp.LookUpDefined`, `PathCalculators.Reaches`).

## Model

| member | source | states |
|---|---|---|
| GraphItems.Blank | main.cpp:24-31 | a new node has the declared defaults: weight -1, parent weight -1, no parent, not passed, no neighbours |
| GraphItems.AddNeighbourOf | main.cpp:33-39 | the target takes the edge weight, the caller as parent and the caller's weight as snapshot, read after the first write; the target is appended to the caller's neighbours; every other node and field is unchanged; well-formedness is kept |
| GraphItems.SetWeightOf | main.cpp:49-59 | when the guard `weight <= 0 or w < weight` fails, nothing changes; when it holds, the node's weight becomes `w`, its parent becomes `p`, and its snapshot is `p`'s weight read after the write; no other node changes |
| GraphItems.Position | main.cpp:205-209 | `find_if`: every node before the returned position fails the predicate, and the returned position holds a match unless it is the end |
| GraphItems.GetWight | main.cpp:41-47 | -1 when no neighbour carries the name; otherwise the weight of the first neighbour that does |
| Graphs.AddOf | main.cpp:68-74 | `Add` appends the node exactly when no listed node has both its name and its weight, and leaves the list alone otherwise |
| Graphs.NamedIn | main.cpp:76-87 | the result holds only listed nodes with the name, and holds every such node; no duplicates when the list has none |
| Graphs.Graph.constructor | main.cpp:64-66 | an empty graph |
| Graphs.Graph.NewItem | main.cpp:196-197 | `new GraphItem()` with its name: one fresh, unlisted default node at the end of the arena |
| Graphs.Graph.AddNeighbour | main.cpp:33-39 | the arena becomes `AddNeighbourOf` of the old one; the node list is unchanged |
| Graphs.Graph.SetWeight | main.cpp:49-59 | returns true exactly when the guard holds; the arena becomes `SetWeightOf` of the old one |
| Graphs.Graph.Add | main.cpp:68-74 | the state becomes `AddOf` of the old state |
| Graphs.Graph.GetNode | main.cpp:76-87 | returns `NamedIn`: the listed nodes with the name, in list order |
| Builder.AllocAdd | main.cpp:222-225 | a new default node named like the destination is appended to the arena and offered to `Add`: it is listed exactly when no listed node already has that name and weight -1, and the list is otherwise unchanged; well-formedness and growth are kept |
| Builder.Dest | main.cpp:216-226 | an existing node is reused exactly when a listed node has the destination's name and the connection's price, and the one reused has both |
| Builder.LinkOne | main.cpp:216-227 | the origin's neighbours gain the destination at the end; the destination carries the price and has the origin as parent; at most one node is allocated; nobody else's neighbours change |
| Builder.LinkEach | main.cpp:183-202 | the fan-out loop over several same-named origins keeps the graph well formed and growing |
| Builder.NamedInFirst | main.cpp:205-209 | `find_if` by name finds the first node `GetNode` returns, and finds nothing exactly when `GetNode` returns an empty list |
| Builder.OriginOf | main.cpp:205-215 | an existing node is reused exactly when some listed node has the origin's name, and the one reused is the first of them (`find_if`, the head of `GetNode`'s list); otherwise a new node is created |
| Builder.WithOrigin | main.cpp:205-215 | after this step the origin exists, and the graph only grows |
| Builder.StepEdge | main.cpp:179-227 | one connection keeps the graph well formed; the arena and the node list only grow; names never change |
| Builder.BuildFrom | main.cpp:175-228 | the whole loop keeps well-formedness and growth, and touches no visited flag |
| Builder.BuildOf | main.cpp:173-228 | the built graph is well formed and no node in it is passed |
| Builder.LinkEachUntouched | main.cpp:183-202 | the fan-out loop changes the neighbours of no node outside the origin list |
| Builder.LinkEachAllocates | main.cpp:183-202 | the only nodes the fan-out loop allocates are named like the destination |
| Builder.LinkEachEveryOrigin | main.cpp:183-202 | each distinct origin gets exactly one new neighbour, appended, named like the destination |
| Builder.LinkOneLast | main.cpp:216-227 | the last neighbour of the origin carries the price and has the origin as parent |
| Builder.LinkOneEffect | main.cpp:216-227 | the origin gets exactly one appended neighbour named like the destination, which carries the price and has the origin as parent; any new node is named like the destination |
| Builder.LinkEachEffect | main.cpp:183-202 | every origin gets one edge; the destination's price and parent come from the last origin; any new nodes are named like the destination |
| Builder.StepEdgeOneOrigin | main.cpp:205-227 | with one listed node of the origin's name, that node gets exactly one edge, to a node carrying the price and having it as parent |
| Builder.StepEdgeManyOrigins | main.cpp:183-202 | with several listed nodes of the origin's name, each gets exactly one edge, and the last one is the parent of the destination |
| Builder.NewOriginListed | main.cpp:205-215 | with no listed node of the origin's name, exactly one new origin is allocated and listed |
| Builder.StepEdgeNewOrigin | main.cpp:205-227 | a new origin is listed, and its only neighbour is the destination, which carries the price and has the new origin as parent |
| Builder.FindOrAddDest | main.cpp:216-226 | returns `Dest`; the graph is unchanged when the destination is reused, and gains one allocated and offered node otherwise |
| Builder.Connect | main.cpp:216-227 | the state becomes `LinkOne` of the old state |
| Builder.ConnectEach | main.cpp:185-201 | the state becomes `LinkEach` of the old state over the whole origin list |
| Builder.FindOrAddOrigin | main.cpp:205-215 | returns `OriginOf`; the state becomes `WithOrigin` |
| Builder.Step | main.cpp:179-227 | the state becomes `StepEdge` of the old state |
| Builder.BuildGraph | main.cpp:173-228 | a fresh, well-formed graph whose state is `BuildOf(edges)` |
| Sorting.Insert | main.cpp:103 | insertion keeps the entries within the arena, and the result is the input plus the new element, as a multiset |
| Sorting.SortByWeight | main.cpp:103 | the sorted list is a permutation of the input and ascending by weight |
| Sorting.InsertSorted | main.cpp:103 | inserting into an ascending list keeps it ascending |
| Sorting.InsertWithWeight | main.cpp:103 | an inserted element goes in front of the entries of equal weight |
| Sorting.SortStable | main.cpp:103 | stability: for every weight, the entries of that weight keep their input order |
| Sorting.SortSorted | main.cpp:103 | sorting an ascending list leaves it unchanged |
| Relaxation.UnpassedMono | main.cpp:117 | the count of unpassed nodes never rises while flags only go from false to true |
| Relaxation.UnpassedDrop | main.cpp:117 | marking an unpassed node passed strictly lowers the count, which is what makes the recursion at line 124 terminate |
| Relaxation.RelaxRoutes | main.cpp:109-115 | the route loop keeps the arena's size |
| Relaxation.RelaxRoutesShape | main.cpp:109-115 | the route loop changes only weights, parents and snapshots, and keeps the arena well formed |
| Relaxation.RelaxAll | main.cpp:104-116 | the neighbour loop keeps the arena's size |
| Relaxation.RelaxAllShape | main.cpp:104-116 | the neighbour loop changes no name, flag or neighbour list, and keeps well-formedness |
| Relaxation.Visited | main.cpp:103-117 | the node's own step keeps well-formedness and does not raise the unpassed count; it strictly lowers the count when the node was unpassed |
| Relaxation.VisitedFacts | main.cpp:103-117 | after its own step the node is passed and its neighbours are the stable sort of the old ones; no other node changes its flag or neighbours |
| Relaxation.CalcWeightsOf | main.cpp:101-126 | `CalcWeights` terminates, keeps the arena well formed, and never raises the unpassed count |
| Relaxation.VisitAll | main.cpp:119-125 | the descent loop terminates and keeps well-formedness |
| Relaxation.CalcWeightsFacts | main.cpp:101-126 | afterwards the node and all its neighbours are passed, and its neighbours are the stable sort of its old list (even when it was already passed); flags only grow; names are kept; every neighbour list stays a permutation of itself; other nodes that were already passed keep their lists |
| Relaxation.CalcWeightsKeeps | main.cpp:101-126 | a call leaves the node passed; flags only grow; names are kept; every neighbour list stays a permutation of itself; other nodes already passed keep their lists |
| Relaxation.VisitAllKeeps | main.cpp:119-125 | the descent loop keeps the same facts, and every node passed before it keeps its neighbour list |
| Relaxation.VisitAllPasses | main.cpp:119-125 | every neighbour the descent loop goes over is passed once the loop is over |
| Relaxation.RelaxRoutesGated | main.cpp:109-115 | the route loop changes a node's weight fields only by making it the child of a node named like some recorded route's end |
| Relaxation.RelaxAllGated | main.cpp:104-116 | the same gate holds over the whole neighbour loop |
| Relaxation.VisitedGated | main.cpp:103-117 | the same gate holds over the node's own step |
| Relaxation.CalcWeightsGated | main.cpp:101-126 | the same gate holds over the whole recursive call |
| Relaxation.VisitAllGated | main.cpp:119-125 | the same gate holds over the descent loop |
| Relaxation.CalcWeightsGate | main.cpp:113-114 | every node whose weight, parent or snapshot changes now has as parent a node named like the last node of a recorded route |
| Relaxation.FirstPassKeepsWeights | main.cpp:109-115 | with no recorded route, `CalcWeights` changes no weight, parent or snapshot |
| Relaxation.CalcWeightsClosed | main.cpp:119-125 | a call keeps true that every passed node outside `open` has only passed neighbours |
| Relaxation.VisitAllClosed | main.cpp:119-125 | the descent loop keeps that closedness |
| Relaxation.ClosedReach | main.cpp:119-125 | in a closed state every node reachable from a passed node is passed |
| Relaxation.CalcWeightsVisitsReachable | main.cpp:119-125 | starting from a closed state, `CalcWeights(start)` leaves every node reachable from the start passed |
| PathCalculators.WayWithin | main.cpp:128-139 | the chain walked back within the step bound starts at the start node, ends at the end node, and links each node to its parent |
| PathCalculators.WayUnique | main.cpp:128-139 | only one such chain exists between two nodes |
| PathCalculators.WayOf | main.cpp:128-139 | the route read back is a chain from the start node to the end node along parent links |
| PathCalculators.WayToStart | main.cpp:132-137 | when the end node is the start node, the route is the start node alone |
| PathCalculators.PathCalculator.constructor | main.cpp:230-231 | a calculator over the given graph, with no routes recorded |
| PathCalculators.PathCalculator.CalcWeights | main.cpp:101-126 | the arena becomes `CalcWeightsOf` of the old one; the node list is unchanged |
| PathCalculators.PathCalculator.RelaxNeighbours | main.cpp:104-116 | the first loop yields `RelaxAll` of the arena |
| PathCalculators.PathCalculator.RelaxRoutesFor | main.cpp:109-115 | the route loop yields `RelaxRoutes` of the arena |
| PathCalculators.PathCalculator.VisitNeighbours | main.cpp:119-125 | the second loop yields `VisitAll` of the arena |
| PathCalculators.PathCalculator.GetCheapestWay | main.cpp:128-139 | returns a chain that starts at the start node, ends at the end node and follows parent links: the unique `WayOf` |
| PathCalculators.PathCalculator.CalcOneRoute | main.cpp:142-147 | the end node is set; the arena becomes `CalcWeightsOf` from the start node; exactly one route is appended, the way back from the end node in the new arena |
| LookUp.Started | main.cpp:238-240 | the start node's weight and parent-weight snapshot become 0 and every other field of it is kept; every other node is unchanged; the arena stays well formed and keeps its size |
| LookUp.RunOne | main.cpp:142-147 | one run keeps well-formedness, keeps the recorded routes, and appends one route from the start node to the end node |
| LookUp.RunAll | main.cpp:241-245 | the runs over the end list add exactly one route per end node, and keep the arena well formed |
| LookUp.RunAllKeeps | main.cpp:241-245 | routes recorded before the runs stay where they are |
| LookUp.RunAllFirst | main.cpp:241-245 | the first run records a route from the start node to the first end node |
| LookUp.RunAllStep | main.cpp:241-245 | the runs from one end node on are that node's run followed by the runs of the rest |
| LookUp.MatchedAt | main.cpp:241-245 | in a matched stretch, the `j`-th route leads from the start node to the `j`-th end node |
| LookUp.RunAllMatched | main.cpp:241-245 | the runs add one route per end node, in end-list order, each leading from the start node to its end node |
| LookUp.RouteTotal | main.cpp:254-261 | the price of a route is the sum of the weights its nodes hold when it is priced: a single-node route costs that node's weight, and a route through nodes of non-negative weight costs at least 0 |
| LookUp.RouteNames | main.cpp:257-261 | a route's description is the name of each node along it, in order |
| LookUp.PriceMap | main.cpp:248-263 | the map after inserting the first `n` routes: a price already present is left alone, so the first route with a price is kept; it is non-empty once a route is inserted and holds the total of the last route inserted |
| LookUp.PriceRoute | main.cpp:253-261 | the inner pricing loop returns the sum of the weights along the route, and its names |
| LookUp.PriceRoutes | main.cpp:248-263 | the pricing loop builds `PriceMap` over all routes |
| LookUp.PriceMapKeys | main.cpp:248-263 | the map's prices are exactly the totals of the routes |
| LookUp.PriceMapFirst | main.cpp:262 | `insert` keeps the first route: each price maps to the description of the earliest route with that total |
| LookUp.SetMin | main.cpp:265 | a finite set of prices has a least element |
| LookUp.MinKey | main.cpp:265 | `begin()` is the least price in the map |
| LookUp.FirstMin | main.cpp:248-265 | an independent reference: the earliest route whose total is at most every other total |
| LookUp.MapBeginIsFirstMin | main.cpp:248-265 | the price and description from `*pmap.begin()` are the least total over all routes and the names of the earliest route with that total |
| LookUp.NamedAfter | main.cpp:232-233 | the start and end lists `GetNode` returns on the built graph lie within its arena |
| LookUp.Initial | main.cpp:238-240 | the state before the first run (built graph, start node zeroed) is well formed and its routes lie within the arena |
| LookUp.LookUpRuns | main.cpp:241-245 | after the runs at least one route is recorded, and every route lies in the arena |
| LookUp.Load | main.cpp:173-233 | the graph is fresh and equals `BuildOf(edges)`, and the two lists are the listed nodes named like the departure and the arrival |
| LookUp.ZeroStart | main.cpp:239-240 | the start node's weight and snapshot become zero, and nothing else changes |
| LookUp.Prepare | main.cpp:230-240 | the calculator's start node is the first node named like the departure; the graph's node list is that of `BuildOf(edges)`; the arena and routes are `Initial` |
| LookUp.RunEach | main.cpp:241-245 | the loop of direct `CalcOneRoute` calls yields `RunAll`; the graph's node list and the start node are unchanged, and the end node is the last end node run |
| LookUp.LookUpOptimalRoute | main.cpp:171-266 | the result is the least price in the map with its description; equivalently, the least route total and the names of the earliest route with that total |

## Left out

- **Printing.** The console output of `CalcOneRoute` (main.cpp:149-159) and the `"Cheapest Path : "` text are not modelled. A route's description is the sequence of its node names.
- **Threads.** `CalcOneRouteInThread` starts a thread and joins it at once. `LookUp.RunEach` makes a direct call instead. Nothing runs concurrently in the source either.
- **main().** The program entry point and its sample data are not modelled. The sample query's outcome (price 10 via A C B E) is not proved: evaluating the relaxation on that concrete graph is beyond what the verifier settles here.
- **Undefined behaviour.** The model's preconditions exclude three cases: an empty start or end list, a parent chain that never reaches the start node, and an empty price map (`LookUp.LookUpDefined`, `PathCalculators.Reaches`).
- PathCalculators.PathCalculator.constructor: `new PathCalculator()` value-initialises `graph`, `start_node` and `end_node` to null, and `graph` is assigned afterwards. The model takes the graph as an argument, and index 0 stands for "not yet assigned" in both node fields until they are set.
- **Integer width.**
  - GraphItems.SetWeightOf: weights are unbounded integers. A 32-bit overflow of `node->weight + g->weight` (main.cpp:108) is not modelled.
  - LookUp.PriceRoute: route totals are unbounded integers. A 32-bit overflow of the sum (main.cpp:259) is not modelled.
- **Memory.** Pointers become arena indices, and nodes are never freed, as in the source.
- **Sort algorithm.** `std::list::sort` relinks the list in place. The model replaces the neighbour list with its sorted value. `Sorting.SortByWeight` is an insertion sort, and its result is characterised by what `std::list::sort` guarantees: a stable, ascending permutation.
- **Order of calls.** The source creates the `PathCalculator` before its two `GetNode` calls. `LookUp.Load` makes the calls first. `GetNode` reads nothing the calculator changes, so the result is the same.
- **Relaxation optimality.** No optimality property of the relaxation is claimed. The relaxation is gated by route-end names and follows depth-first order, so it does not compute shortest paths in general. The model states what it does compute.
