# Water distribution planner: network construction and min-cost max-flow

This project models the core of a water distribution planner. The planner
reads districts ("places", each with a water surplus or deficit, a priority
from 1 to 5 and a soil type) and the pipes between them from a text file.
It builds a residual flow network with a super source feeding every surplus
place and a super sink fed by every deficit place. Each unit delivered to a
lower-priority deficit place pays a penalty of 1000 per priority level. The
planner then runs successive-shortest-path min-cost max-flow with a
Bellman-Ford search. On the resulting flow it answers read-only queries:
it traces one flow-carrying path between two places and reports the pipes
running at full capacity.

Modules, one per source file:

- `Graph` (graph.dfy) holds the data structures and `add_edge`. An arc and
  its residual twin refer to each other by index into the other node's arc
  list.
- `Solver` (solver.dfy) is the Bellman-Ford search and the augmenting loop.
  The search is a method with nested loops over sequence-valued distance,
  bottleneck and parent tables. It is proved against `Reach(g, s, k)`, the
  set of nodes reachable along at most `k` arcs of positive residual
  capacity. A pigeonhole argument shows that `|g| - 1` rounds reach
  everything.
- `Analysis` (analysis.dfy) covers network construction in `run_analysis`,
  the depth-first path tracer, the transfer query's ID checks and the
  bottleneck report.
- `Loader` (loader.dfy) is the line state machine of the file loader.

The network is a value (`seq<seq<Edge>>`). The C++ functions that mutate
it through a reference take it in and hand the updated network back. No
other reference to it exists in the source.

## Model

| member | source | states |
|---|---|---|
| Graph.AddEdge | source/graph_ops.cpp:7-17 | the network keeps its size and every other node's list; for u != v the forward arc (capacity cap, flow 0, cost) is appended to u with twin index = old length of v's list and the residual arc (capacity 0, cost -cost) to v with twin index = old length of u's list; for a self-loop both land in u's list and both name the forward arc as twin |
| Graph.AddEdgeWellFormed | source/graph_ops.cpp:7-17 | inserting an arc pair keeps every arc's head and twin index in range and leaves all existing arcs unchanged |
| Graph.AddEdgeTwinLinked | source/graph_ops.cpp:10-16 | for u != v the twin of the twin of every arc is the arc itself, before and after the insertion |
| Graph.SelfLoopBreaksTwinLink | source/graph_ops.cpp:10-16 | for u == v the residual arc's twin is the forward arc, whose twin is itself, so twin linkage fails |
| Graph.AddEdgeAntisymmetric | source/graph_ops.cpp:10-16 | flow(e) + flow(twin(e)) == 0 survives an insertion, and a flow-free network stays flow-free |
| Graph.NewArcsCarryNoFlow | source/graph_ops.cpp:10-15 | both appended arcs and their twins carry flow 0 |
| Graph.SameShapeKeepsLinks | source/mcmf_solver.cpp:82-88 | changing only flows keeps heads, twin indices and twin linkage |
| Solver.BellmanFord | source/mcmf_solver.cpp:11-53 | the result flow is 0 exactly when t is not reachable from s over arcs with positive residual capacity (and then the result is {0, 0}); otherwise 0 < flow <= INT_MAX, t lies on a parent chain whose every link is an arc of positive residual capacity, the flow does not exceed the last arc's residual capacity, and the returned cost is the cost of a walk from s to t over arcs of positive residual capacity |
| Solver.Search | source/mcmf_solver.cpp:13-46 | after the relaxation rounds the search invariant holds, every node reachable from s over arcs of positive residual capacity has a finite distance, and every finite distance is the cost of a residual walk from s to its node |
| Solver.InitialSearch | source/mcmf_solver.cpp:13-21 | the initial tables (dist[s] = 0, path_flow[s] = INT_MAX, all parents -1) satisfy the search invariant and cover the nodes reachable in 0 arcs |
| Solver.Round | source/mcmf_solver.cpp:25-45 | one relaxation pass keeps the search invariant and the walk witnesses of the finite distances, never makes a finite distance infinite, gives every residual successor of an already-finite node a finite distance, and when nothing was updated the distance table is closed under residual arcs |
| Solver.ScanNode | source/mcmf_solver.cpp:27-43 | scanning one node's arcs keeps the invariant and the walk witnesses and, when the node's distance is finite, makes the head of each of its residual arcs finite |
| Solver.Relax | source/mcmf_solver.cpp:28-41 | relaxing one arc keeps the invariant and the walk witnesses, keeps finite distances finite, and makes the arc's head finite when its tail is finite and the arc has residual capacity; when it changes anything, the tail was finite, the head's distance strictly dropped to dist[u] + cost, its parent is u, and its path_flow is at most both path_flow[u] and the arc's residual capacity |
| Solver.WalkExtend | source/mcmf_solver.cpp:33-36 | extending a residual walk to u by a residual arc u -> v gives a residual walk to v whose cost is the old cost plus the arc's cost, as new_dist = dist[u] + edge.cost |
| Solver.WitnessRelax | source/mcmf_solver.cpp:33-38 | after dist[v] := dist[u] + cost every finite distance is still the cost of a residual walk from s to its node |
| Solver.RelaxKeepsInv | source/mcmf_solver.cpp:33-39 | the update of dist, parent and path_flow keeps each parent link an arc of positive residual capacity and each path_flow[v] at most the residual capacity of the arc that last reached v |
| Solver.RoundExtends | source/mcmf_solver.cpp:24-44 | after round k every node reachable in k + 1 arcs has a finite distance |
| Solver.CoveredHoldsReach | source/mcmf_solver.cpp:45 | breaking early on a pass without updates loses nothing: every reachable node already has a finite distance |
| Solver.ReachSaturates | source/mcmf_solver.cpp:23-24 | N - 1 rounds suffice: any node reachable along some number of residual arcs is reachable along at most N - 1 |
| Solver.ClosedHoldsReach | source/mcmf_solver.cpp:24-46 | a node set containing s and closed under residual arcs contains everything reachable from s |
| Solver.SearchOutcome | source/mcmf_solver.cpp:48-52 | once every reachable node is finite, dist[t] is infinite exactly when t is unreachable, and a finite dist[t] comes with a parent chain and 0 < path_flow[t] <= INT_MAX |
| Solver.AddFlow | source/mcmf_solver.cpp:84-88 | adding to one arc's flow changes flows only and leaves every other node's list as it was |
| Solver.Push | source/mcmf_solver.cpp:82-88 | pushing f units along an arc changes flows only and keeps the network well formed |
| Solver.PushSums | source/mcmf_solver.cpp:82-88 | the push raises the tail's net outflow by f, lowers the head's by f, leaves every other node's unchanged, and lowers the tail's residual slack accordingly |
| Solver.PushPair | source/mcmf_solver.cpp:83-88 | the push keeps twin linkage and flow antisymmetry |
| Solver.PushFlow | source/mcmf_solver.cpp:84-88 | exactly the arc gains f and its twin loses f; no other arc's flow changes |
| Solver.StepMovesFlow | source/mcmf_solver.cpp:78-90 | each step of the walk back from t moves the f units' source one node up the chain while conservation holds elsewhere |
| Solver.StepSpendsSource | source/mcmf_solver.cpp:78-90 | the arc leaving s on the path loses residual capacity |
| Solver.WalkStep | source/mcmf_solver.cpp:78-90 | one step of the walk keeps the walk invariant: shape, antisymmetry, conservation up to the current node, and the trail following parent links |
| Solver.WalkDone | source/mcmf_solver.cpp:78-91 | when the walk reaches s, every node's net flow changed by exactly +f at s, -f at t and 0 elsewhere, and s's residual slack strictly dropped |
| Solver.PushAlong | source/mcmf_solver.cpp:77-91 | pushing f along the links of a trail changes flows only and keeps the network well formed |
| Solver.PushAlongFlow | source/mcmf_solver.cpp:82-88 | arc by arc, the push along a trail adds f once for every link that is this arc and takes f once for every link whose twin is this arc |
| Solver.OffChainKeeps | source/mcmf_solver.cpp:82-88 | an arc that is neither a link of the chain nor a link's twin keeps its flow |
| Solver.PushAlongStep | source/mcmf_solver.cpp:80-89 | one more step of the walk pushes along the arc that last reached the current node |
| Solver.Walk | source/mcmf_solver.cpp:77-91 | the walk from t follows parent links and either reaches s or stops after N + 1 nodes (a parent cycle); the network it returns is exactly the input pushed by f along the arc that last reached each node of the trail, in trail order |
| Solver.Augment | source/mcmf_solver.cpp:76-91 | augmentation changes flows only, keeps antisymmetry, and when it reaches s moves exactly f units from s to t with conservation at every other node; the result is exactly the push of f along the walked trail, so only the chain's arcs and their twins change |
| Solver.FlowMovedAdd | source/mcmf_solver.cpp:73 | two successive augmentations of a and b units move a + b units, matching max_flow_result += path_flow |
| Solver.AugmentOnce | source/mcmf_solver.cpp:69-91 | one iteration of the outer loop: a zero-flow search leaves the network alone and means t is unreachable; a positive one moves exactly that flow, strictly reduces the residual capacity out of s, and its cost is the cost of a residual walk from s to t in the network before the push; a positive iteration returns its predecessor tables and trail, which start at t and follow the parent links, and the new network is exactly the push of that flow along the trail |
| Solver.TraceExtend | source/mcmf_solver.cpp:69-91 | one more augmentation of f units along a residual walk of cost c, to a network that differs in flows only and (when the push completed) has moved exactly f units from s to t, extends the trace, adding f to the flow and f * c to the cost |
| Solver.MinCostMaxFlow | source/mcmf_solver.cpp:58-95 | the result has the input's shape with antisymmetric flows, max flow >= 0, every node's net flow changed by +maxFlow at s, -maxFlow at t and 0 elsewhere, and no augmenting path remains; with zero flow the network is unchanged; the run is a chain of networks from the input to the result, each differing from the one before in flows only and moving that augmentation's flow from s to t, and each augmentation of positive flow is costed by a residual s -> t walk in the network it was found in; max flow is the sum of the flows, total cost the sum of flow * walk cost, and each walk cost is computed from the input's own arc costs |
| Solver.RunCostsFromInput | source/mcmf_solver.cpp:52-74 | every network of a run has the input's shape, so each augmentation's cost is its walk's cost over the input's arc costs |
| Solver.RunMovesFlow | source/mcmf_solver.cpp:73-91 | a completed run's networks compose: the result moved exactly the total flow from s to t |
| Solver.FreeRun | source/mcmf_solver.cpp:52-74 | a run over a network whose arcs all cost 0 reports total cost 0 |
| Analysis.PenaltyCost | source/analysis.cpp:202 | the per-unit penalty is a multiple of PRIORITY_PENALTY = 1000, zero exactly for priority 1, and between 0 and 4000 for priorities 1..5 |
| Analysis.Empty | source/analysis.cpp:182 | the graph of N + 2 empty lists is well formed, twin linked and flow free |
| Analysis.AddAll | source/analysis.cpp:185-187 | the connection loop keeps the number of nodes |
| Analysis.SuperConn | source/analysis.cpp:193-205 | a super arc joins two distinct nodes of the N + 2 |
| Analysis.AddSuper | source/analysis.cpp:193-206 | one place's step keeps N + 2 nodes, changes nothing for a zero balance, and leaves every other place's list alone |
| Analysis.AddSupers | source/analysis.cpp:193-206 | the super-arc loop keeps N + 2 nodes and leaves the list of a place no entry names alone |
| Analysis.Built | source/analysis.cpp:182-206 | the network handed to the solver has N + 2 nodes, S = N and T = N + 1 after the places |
| Analysis.AddSuperIs | source/analysis.cpp:194-205 | a surplus place gets add_edge(S, id, balance, 0), a deficit place add_edge(id, T, abs(balance), (priority - 1) * 1000), a zero-balance place nothing |
| Analysis.AddAllKeeps | source/analysis.cpp:185-187 | the connection loop keeps well-formedness, antisymmetry and zero flow, and twin linkage when no connection is a self-loop |
| Analysis.AddAllUntouched | source/analysis.cpp:185-187 | a node no connection names keeps its arc list |
| Analysis.AddSupersWellFormed | source/analysis.cpp:193-206 | the super-arc loop keeps the network well formed |
| Analysis.AddSupersAntisymmetric | source/analysis.cpp:193-206 | the super-arc loop keeps antisymmetry |
| Analysis.AddSupersTwinLinked | source/analysis.cpp:193-206 | the super-arc loop keeps twin linkage |
| Analysis.AddSupersZeroFlow | source/analysis.cpp:193-206 | the super-arc loop adds no flow |
| Analysis.BuiltIsSound | source/analysis.cpp:182-206 | the built network is well formed, flow free and antisymmetric, and twin linked when no connection is a self-loop |
| Analysis.AddSupersAtSource | source/analysis.cpp:194-196 | the super source's list grows by exactly one arc per surplus place, in place order |
| Analysis.AddSupersAtSink | source/analysis.cpp:197-205 | the super sink's list grows by exactly one residual arc per deficit place, in place order, with cost -(priority - 1) * 1000 |
| Analysis.BuiltEnds | source/analysis.cpp:190-206 | in the built network the super source holds exactly the surplus arcs, the super sink exactly the deficit residual arcs, and the capacity out of the super source is the total available |
| Analysis.SourceCapacity | source/analysis.cpp:194-196 | the capacities of the super source's arcs add up to the total surplus |
| Analysis.SuperStep | source/analysis.cpp:193-206 | one more place adds its super arc and its share of total_available or total_required |
| Analysis.ReportFlows | source/analysis.cpp:211-213 | starting from no flow, the flow leaves the super source, enters the super sink and is conserved at every place |
| Analysis.BuildNetwork | source/analysis.cpp:176-206 | the built network and the two totals equal their definitions (total_available = sum of surpluses, total_required = sum of deficits) |
| Analysis.AddConnections | source/analysis.cpp:185-187 | the loop adds every connection in order |
| Analysis.AddSuperArcs | source/analysis.cpp:190-206 | the loop adds every place's super arc in order and accumulates both totals |
| Analysis.RunAnalysis | source/analysis.cpp:170-213 | no places means no analysis; otherwise the totals are the sums, the solved network has the built shape, and unless the solver diverged the max flow leaves S, enters T, is conserved at every place, and no augmenting path remains; the reported max flow and min cost are the sums over the solver's chain of augmentations starting from the built network, each augmentation costed by a walk over the built network's arc costs |
| Analysis.PathMinIsBottleneck | source/analysis.cpp:23-27 | the reported path flow is at most the starting value and at most every arc's flow on the path, and positive when they all are |
| Analysis.FirstHop | source/analysis.cpp:14-20 | a fresh simple flow path from u != t starts with a flow-carrying arc out of u to an unvisited node |
| Analysis.SkipArc | source/analysis.cpp:18-29 | an arc the loop passes over, or whose recursive search fails, adds no path |
| Analysis.Extend | source/analysis.cpp:23-27 | prefixing the found path with the arc taken gives a path whose flow is the min and whose cost adds flow * cost of that arc |
| Analysis.Carries | source/analysis.cpp:20 | an arc the trace may follow has used part of its capacity |
| Analysis.FindFlowPath | source/analysis.cpp:12-33 | true means a simple path of flow-carrying forward arcs avoiding visited nodes, with flow = the min over its arcs and cost = the sum of flow * cost, and exactly its nodes stay marked; false means no such path exists and flow, cost and visited are as on entry |
| Analysis.TransferQuery | source/analysis.cpp:41-79 | an out-of-range ID is rejected; otherwise a non-surplus source or a non-deficit target is rejected, in that order; else either a flow path from source to target is reported with its bottleneck flow (0 < flow <= INT_MAX) and cost, or no flow path exists |
| Analysis.IsBottleneck | source/analysis.cpp:92 | a bottleneck arc has no residual capacity left and carries flow |
| Analysis.Bottlenecks | source/analysis.cpp:84-104 | as written: the report holds exactly the forward arcs with capacity > 0 and flow == capacity that leave one of the N place nodes, in scan order (strictly ascending by tail node, then arc index); found says the report is non-empty |
| Analysis.PipeBottlenecks | source/analysis.cpp:89-97 | corrected: the report holds exactly the saturated arcs between two places, in the same scan order, so every reported head indexes the place list |
| Analysis.ExampleBuilt | source/analysis.cpp:182-206 | two places A(+5), B(-5, priority 2) and a pipe A -> B (capacity 5, cost 1) build the concrete network given |
| Analysis.ExampleSinkArc | source/analysis.cpp:92-94 | in the example's final flow the arc B -> T is reported as a bottleneck, its head is node N + 1, and the corrected report omits it |
| Analysis.SinkArcOverrunsPlaces | source/analysis.cpp:89-95 | the example flow meets every solver guarantee (shape, antisymmetry, conservation of 5 units, no augmenting path), yet the as-written report includes an arc whose head is N + 1, outside the place list the report indexes |
| Loader.HeadersDiffer | source/file_io.cpp:30-36 | a section header line is not blank, and a [PLACES] line is not a [CONNECTIONS] line |
| Loader.Classify | source/file_io.cpp:30-40 | a line is skipped exactly when it is empty or starts with '#'; a line starting with [PLACES] or [CONNECTIONS] is that header; every other line is a record |
| Loader.Step | source/file_io.cpp:30-69 | one line only appends, adds at most one place or connection, keeps place IDs equal to positions and connection endpoints below the place count, changes no list on a blank or header line, and does nothing to a record before the first header |
| Loader.RunFrom | source/file_io.cpp:28-70 | reading lines only appends to both lists and keeps them consistent |
| Loader.Load | source/file_io.cpp:19-70 | a loaded file gives places numbered 0.. in file order and connections whose endpoints are all loaded places |
| Loader.RunFromAppend | source/file_io.cpp:28 | reading a + b is reading a then continuing with b |
| Loader.LoadGrows | source/file_io.cpp:28-70 | appending lines to a file never removes a loaded place or connection |
| Loader.PreambleKeeps | source/file_io.cpp:23-24 | with no header yet, header-free lines change nothing |
| Loader.PreambleIgnored | source/file_io.cpp:44-69 | lines before the first header have no effect on the result |
| Loader.Meaningful | source/file_io.cpp:30 | dropping lines keeps only non-blank lines |
| Loader.BlankLinesIrrelevant | source/file_io.cpp:30 | removing every empty and '#' line leaves the result unchanged |
| Loader.ConnectionKeptIff | source/file_io.cpp:54-65 | a well-formed connection line is kept if and only if both endpoints are in 0..places.size()-1, and then it is appended as read |
| Loader.LoadData | source/file_io.cpp:11-76 | an unopenable file gives false and leaves both lists alone; otherwise true, with both lists cleared and refilled exactly as Load describes |
| Loader.ExampleLoad | source/file_io.cpp:28-70 | a concrete file loads to exactly two places and two connections: the comment and the stray line before any header are dropped, a connection read before its places is rejected, a malformed place line is skipped, an out-of-range ID is rejected, and the self-loop 1 -> 1 is accepted |

## Left out

- Console I/O is left out: menus, prompts, `cin`, and every message printed by the loader and the queries. The IDs `calculate_specific_transfer_cost` reads become parameters of `Analysis.TransferQuery`. The file-open failure becomes `None` in `Loader.LoadData`.
- Number parsing is not modelled. Each `Line` carries the outcome of `ss >> name >> balance >> priority >> soil` and of `ss >> u >> v >> capacity >> cost` as `asPlace` and `asConn`. `None` stands for a malformed line.
- `suggest_crops` (floating-point fulfilment ratios over a crop table) and `main.cpp` are not part of this model.
- 32-bit arithmetic is not modelled. Distances, costs, `total_cost`, `max_flow_result` and the running totals are unbounded integers, so overflow of `dist[u] + edge.cost`, `path_flow * path_cost` or the sums is absent. `INT_MAX` appears as the infinite distance (`Dist.Inf`), as the starting `path_flow[s]` in the search (mcmf_solver.cpp:18) and as the starting flow of the path trace in `Analysis.TransferQuery` (analysis.cpp:65).
- Solver.MinCostMaxFlow: proves conservation, "no augmenting path remains" and that the total cost is the sum of flow * walk cost over the augmentations, but not that this cost is minimal or that 0 <= flow <= capacity on every arc. The walk costed is a residual s -> t walk in that iteration's network, not proved to be the predecessor chain the flow was pushed along, and the run's trace links consecutive networks by shape and by the net flow moved at each node; the arc-by-arc push of each single iteration is stated by Solver.AugmentOnce, not carried into the trace.
- Solver.MinCostMaxFlow: a parent chain that cycles makes the source's augmentation loop spin forever. Here the walk stops after N + 1 nodes and the run ends with `diverged` set. With non-negative pipe costs every chain reaches s, but that is not proved.
- Solver.BellmanFord: proves that `dist[t]` is the cost of some residual walk from s to t, but not that it is the cheapest, nor that this walk is the parent chain, nor that the chain's flow is the minimum over all of its arcs. It proves reachability in both directions and the bound on the last arc.
- Analysis.FindFlowPath: requires that the start and target are unvisited and the visited table matches the graph size. The one top-level call (all false) and every recursive call (on unvisited heads) meet this.
- Analysis.RunAnalysis: the "Total Required / Total Available" line and the flow and cost report are returned as values, not printed.
- The loader accepts a self-loop connection such as `1 1 3 2`, and `add_edge` then breaks twin linkage (Loader.ExampleLoad with Graph.SelfLoopBreaksTwinLink). The network properties that need twin linkage are therefore stated under "no connection is a self-loop".
- The priority penalty is the constant `PRIORITY_PENALTY` = 1000 (include/data_structures.h:11), used at analysis.cpp:202; it is not a parameter of the model.
- The penalty is charged per unit of flow. It is the cost of the place -> T arc, so it enters `path_cost`, and `total_cost += path_flow * path_cost` (mcmf_solver.cpp:74) multiplies it by the units sent; `Solver.MinCostMaxFlow` states the total as the sum of flow * walk cost, and `Solver.RunCostsFromInput` ties each walk cost to the built network's arc costs, penalties included.
- A residual arc carries the negated flow of its twin (mcmf_solver.cpp:88), so a residual arc that has been pushed back holds a negative flow against capacity 0; the model does not state 0 <= flow <= capacity for any arc.

## Findings

| source | as written | input that shows it | evidently intended | confidence | as-written member | corrected member |
|---|---|---|---|---|---|---|
| source/analysis.cpp:89-95 | the bottleneck report scans every arc leaving a place node and prints `places[edge.to_place]`; a saturated arc into the super sink has head N + 1, past the end of `places` | places A (+5, priority 1) and B (-5, priority 2), one pipe A -> B with capacity 5 and cost 1: after the solver, B -> T carries 5 of 5 and is reported | report only pipes between places (or skip arcs whose head is a super node) | not executed | Analysis.Bottlenecks, Analysis.SinkArcOverrunsPlaces | Analysis.PipeBottlenecks |
