# Distance Vector Routing simulator: the DVR engine

This project models the simulation engine of a Distance Vector Routing (DVR)
teaching tool. There are two front ends. `script.js` is a browser page where
the user edits a graph of routers and weighted links, runs DVR one router
per animation step, and asks for the path between two routers. `dvr.py` is a
script that reads a topology and animates the same algorithm frame by frame.
The model covers the parts of both that compute anything:

- the link-cost lookup, which tries both orientations of a link key;
- the relaxation a router performs on its distance vector: neighbours in
  list order, strict improvement only, so the first neighbour to reach the
  best cost keeps the next hop. Each destination is relaxed on its own. One
  pass of the source's destination loop reads and writes a single entry, so
  the order of destinations does not matter and the model fixes none;
- the engine. A round clears the `updatedInIteration` flags and then
  processes the routers one at a time, in ascending id order in `script.js`
  and in `node_order` in `dvr.py`. Each router reads its neighbours' current
  vectors, so the relaxation is sequential, in Gauss-Seidel style. A round
  that raises no flag ends the run as converged. The run gives up after 20
  rounds. `dvr.py` needs two quiet rounds in a row before it stops;
- the topology store of `script.js` (`addRouter`, `deleteRouter`, `addLink`,
  `resetSimulation`) with the invariant that keeps the routers' vectors,
  next-hop tables and neighbour lists consistent with the link table;
- `findPath`, which follows next hops from the source to the destination,
  with its convergence, same-router, reachability, incomplete-path and loop
  guards.

Modules:

- `Costs` is the cost domain: a finite integer or infinity.
- `Links` holds the link table and `getLinkCost` / `get_link_cost`.
- `Relaxation` is `updateDistanceVector` as functions.
- `Engine` holds steps, rounds, runs and fixed points.
- `Topology` holds the router table, its invariant, and the topology edits as functions.
- `Paths` is `findPath`.
- `Routers` is the `Router` class of `script.js` and the loops of its constructor and its `updateDistanceVector`.
- `Globals` holds the page's global variables with `runDvrStep` and `runDvr` as functions.
- `Simulation` holds the page's state as a class `Network`, whose methods are the top-level functions of `script.js`.
- `PyDvr` is `dvr.py`: the `Node` class, the node construction, and `update(frame)` driven by `FuncAnimation`.
- `Descent` holds the invariant under which `findPath` cannot loop: along every next hop the cost strictly falls. The engine, `addRouter` and an `addLink` that raises no entry keep it. `deleteRouter` does not, and a corrected `deleteRouter` that rebuilds the vectors from the direct links does.
- `StaleRoutes` is a worked run in which `deleteRouter` leaves stale routes, a later run converges on them, and `findPath` reports a loop.

Costs are integers or an explicit infinity. A distance vector or next-hop
table is a map keyed by router id. Router ids are natural numbers. In
`script.js` the map from ids to `Router` objects is held as a map of values.

The two sources read a missing or zero entry of a neighbour's vector
differently. `script.js` writes `neighborVector[dest] || Infinity`, which
turns a stored 0 into infinity, so a router never offers its own self-entry
to a neighbour. `dvr.py` writes `.get(dest, inf)`, which keeps the 0. The
model carries this difference as a `Reading` parameter: `ZeroAsInfinity`
for `script.js` and `ZeroAsZero` for `dvr.py`. The textbook Bellman-Ford
rule counts only a missing entry as infinite; the model follows each
source's own reading instead.

## Model

| member | source | states |
|---|---|---|
| Links.LinkCost | script.js:102-113 | The cost is finite exactly when a link is stored under either orientation of the pair, and a finite cost is one of the stored link costs. |
| Links.LinkCostSymmetric | script.js:102-113 | When the two orientations do not disagree, the lookup gives the same cost both ways round, and it is the stored cost of whichever key exists. |
| Links.LinkCostBothOrientations | dvr.py:36-42 | When `link_costs` holds both `(u, v)` and `(v, u)`, each direction reads its own key, so the two directions may see different costs. |
| Relaxation.RelaxEntry | script.js:83-91 | One destination relaxed over all neighbours: the cost never rises; it is at most every neighbour's candidate `linkCost + neighborVector[dest]`; an unchanged cost keeps its next hop. |
| Relaxation.RelaxEntryWinner | script.js:86-89 | When the cost changes, the new cost is the candidate of some neighbour that now is the next hop, and every neighbour earlier in the list offered strictly more. Ties keep the first discoverer. |
| Relaxation.RelaxVector | script.js:75-98 | Relaxing a whole vector keeps its keys and the router's own entry. Each cost is at most its old value and at most every neighbour's candidate (the Bellman-Ford inequality). A next hop changes only where the cost changed. |
| Relaxation.RelaxVectorHopsMatch | script.js:85-88 | The relaxation keeps every next hop null exactly where the cost is infinite: a changed entry takes a finite cost together with its neighbour as next hop. |
| Relaxation.RelaxVectorImproved | script.js:85-88 | A changed entry was set by a neighbour with a received vector: the new cost is that neighbour's candidate, the next hop is that neighbour, and earlier neighbours offered more. |
| Relaxation.RelaxVectorChangedIff | dvr.py:66-73 | The vector changes if and only if some neighbour offers some destination other than the router itself a candidate strictly below its current cost. |
| Engine.SortedIds | script.js:390 | `Object.keys(routers)` for integer-like ids: exactly the ids in the table. |
| Engine.SortedIdsAscending | script.js:390 | The ids come out in strictly ascending order. |
| Engine.ReceivedVectors | script.js:415-418 | The received vectors are keyed by exactly the current router's neighbours, each a copy of that neighbour's current distance vector. |
| Engine.ProcessRouter | script.js:399-421 | One step changes only the current router. It keeps that router's neighbours and key sets, never raises a cost, keeps its self entry, and raises its flag exactly when the vector changed (or leaves it raised). |
| Engine.ClearFlags | script.js:393-397 | Every router's flag is false afterwards, and nothing else changes. |
| Engine.ProcessStable | script.js:75-98 | Processing a router that has nothing to improve leaves the whole table, its next hops and flag included, exactly as it was. |
| Engine.ProcessUnchanged | script.js:421 | A step that does not raise the router's flag left that router stable and the table unchanged. |
| Engine.RoundWithoutUpdate | script.js:438-451 | A round that starts and ends with no flag raised changed nothing, and every router it processed is stable. |
| Engine.FixedPointRound | script.js:383-473 | Once the tables are at a fixed point, a round changes nothing. |
| Engine.ClearFlagsStable | script.js:393-397 | Clearing the flags neither makes nor breaks a fixed point. |
| Engine.ConvergedRound | script.js:442-460 | If a round over all routers ends with no flag raised, it changed nothing but the flags, and both the tables it started from and the tables it ended with are at a fixed point: the convergence test is sound. |
| Engine.RoundsAfterFixedPoint | script.js:383-473 | Further rounds after a fixed point only clear the flags. |
| Engine.FixedPointBellman | script.js:85-86 | At a fixed point every entry other than the router's own satisfies the Bellman-Ford inequality against each neighbour: `dv[r][d] <= cost(r, n) + dv[n][d]`, with `dv[n][d]` read as the source reads it (in `script.js` a stored 0 reads as infinity). |
| Engine.ProcessRouterKeepsInvariant | script.js:399-421 | A step preserves the topology invariant, including that a next hop is null exactly when its cost is infinite. |
| Engine.ClearFlagsKeepsInvariant | script.js:393-397 | Clearing flags preserves the topology invariant. |
| Engine.RunRoundKeepsInvariant | script.js:383-473 | A whole round preserves the topology invariant. |
| Engine.MidRoundNext | script.js:400-435 | Processing the next router of the list advances a round in progress by one router. |
| Engine.MidRoundConverged | script.js:438-459 | A finished round with no flag raised leaves a fixed point. |
| Topology.AddRouterKeepsInvariant | script.js:218-223 | `addRouter` preserves the invariant with the counter moved on by one. It adds exactly the new id, and that id was not in use. |
| Topology.AddRouterEntries | script.js:59-72 | The new router has cost 0 to itself, infinity and no next hop toward every existing router, and no neighbours. Every existing router gains an infinite, hop-less entry for it and keeps every other entry. |
| Topology.Without | script.js:251-255 | Dropping a router from a neighbour list removes exactly that id, keeps the list duplicate-free, and changes nothing when the id is absent. |
| Topology.IndexOf | script.js:251 | `indexOf`: -1 exactly when the id is absent; otherwise the position of its first occurrence. |
| Topology.SpliceRemoves | script.js:251-252 | On a duplicate-free list, `splice(indexOf(x), 1)` is the list without `x`. |
| Topology.DeleteRouterKeepsInvariant | script.js:231-274 | `deleteRouter` preserves the invariant, removes exactly the deleted id, and leaves no link touching it. |
| Topology.AddLinkKeepsInvariant | script.js:285-317 | A new link preserves the invariant. Its cost reads the same both ways round, and both endpoints get a direct entry at the link cost with the other endpoint as next hop. |
| Topology.AddLinkDirect | script.js:313-317 | Both endpoints get a direct entry at the link cost with the other endpoint as next hop. |
| Paths.WalkShape | script.js:351-377 | A walk that succeeds extends the path it started from, ends at the destination, and follows next hops, reaching the destination only at its end. Its length is within the router count. |
| Paths.HopChainDistinct | script.js:372-376 | A next-hop chain that reaches the destination only at its end repeats no router. |
| Paths.WalkErrors | script.js:352-377 | A walk fails only with a missing router, an incomplete path or a detected loop. |
| Paths.FindPathGuards | script.js:325-349 | `findPath` reports NotConverged exactly when the engine has not converged, SameRouter exactly when the two routers coincide, and Unreachable exactly when the source has no next hop or an infinite cost toward the destination. |
| Paths.FindPathUnreachable | script.js:346-349 | On a router whose next hops are null exactly at infinite costs, `findPath` reports Unreachable exactly when the engine has converged, the routers differ and the source's cost toward the destination is infinite. |
| Paths.FindPathFound | script.js:325-380 | A path found runs from the source to the destination, follows next hops, has between 2 and the router count entries, repeats no router, and costs what the source's distance vector says. |
| Descent.DescentFindsPath | script.js:325-380 | On tables where the cost strictly falls along every next hop, `findPath` between two distinct routers finds a path exactly when the source's cost is finite, and otherwise reports Unreachable: never a loop, an incomplete path or a missing router. |
| Descent.WalkArrives | script.js:352-377 | From a path whose costs fall along next hops and whose last router holds a finite cost, the walk reaches the destination within the router count. |
| Descent.LoweredEntry | script.js:85-89 | An entry the relaxation lowers was set from a neighbour's received vector, and the new cost is strictly below what that neighbour offered before the link cost was added. |
| Descent.ProcessRouterDescends | script.js:75-98 | Processing a router keeps costs strictly falling along next hops: a lowered entry points at a neighbour holding less, and the other routers' entries can only fall. |
| Descent.ClearFlagsDescends | script.js:393-397 | Clearing the flags keeps the descent invariant. |
| Descent.RunRoundDescends | script.js:399-421 | Processing routers one after another keeps the topology invariant and the descent invariant. |
| Descent.RoundsDescends | script.js:383-473 | Any number of rounds keeps the topology invariant and the descent invariant. |
| Descent.RunDvrDescends | script.js:476-495 | `runDvr` keeps the descent invariant. |
| Descent.RunDvrFindsPath | script.js:325-380 | After `runDvr` from globals that keep the descent invariant, a converged run leaves tables where `findPath` finds a path exactly when the source's cost is finite, and otherwise reports Unreachable. |
| Descent.InitialDescends | script.js:37-46 | The empty network of a page load or reset keeps the descent invariant. |
| Descent.AddRouterDescends | script.js:218-228 | `addRouter` keeps the descent invariant. |
| Descent.AddLinkDescends | script.js:308-317 | `addLink` keeps the descent invariant when the link cost is at most both endpoints' current costs for each other. |
| Descent.RebuildKeeps | script.js:231-282 | Rebuilding every vector from the direct links keeps the topology invariant, makes every next hop the destination itself, and gives each router exactly its link costs. |
| Descent.DeleteRouterRebuiltKeeps | script.js:231-282 | The corrected `deleteRouter` removes exactly the deleted id and keeps both the topology invariant and the descent invariant. |
| StaleRoutes.StaleRouteLoop | script.js:231-282 | The converged line 1-2-3-4 with unit costs; `deleteRouter(3)`; `addLink(2, 4, w)` with `w > 4`. One round changes router 2's route to 4 onto router 1's stale cost, the tables are then at a fixed point, and `findPath(1, 4)` reports a loop. |
| StaleRoutes.DeleteBreaksDescent | script.js:265-270 | The converged line keeps the descent invariant, and `deleteRouter(3)` breaks it: router 2 keeps a next hop to the deleted router. |
| Routers.Offer | script.js:85-91 | One candidate offered to one entry: the result is at most both; when the entry changes, the candidate was strictly better, and it is stored with its neighbour as next hop. |
| Routers.RegisterNewId | script.js:66-72 | Every existing router gets an infinite entry and no next hop toward the new id. Nothing else about it changes. |
| Routers.Router.constructor | script.js:50-64 | A new `Router` has no neighbours, a lowered flag, cost 0 to itself, and infinity and no next hop toward every existing router. |
| Routers.Router.UpdateDistanceVector | script.js:75-98 | The vector and next hops become the relaxation of the old ones against the received vectors. The result is true exactly when the vector changed, and the flag is raised when it did. |
| Routers.RelaxAll | script.js:76-97 | The nested loops over neighbours and destinations compute exactly the relaxation function. `updated` holds exactly when the vector changed. |
| Routers.RelaxNeighbor | script.js:79-94 | One neighbour's pass of the outer loop carries the loop's invariant one neighbour further: every destination's entry is where the relaxation over the remaining neighbours starts. |
| Routers.OfferAll | script.js:83-93 | The inner loop offers one neighbour's candidate to every destination except the router itself. It never raises a cost and reports exactly whether the vector changed. |
| Simulation.ClearAllFlags | script.js:393-397 | The flag-clearing loop computes the cleared table. |
| Simulation.GatherVectors | script.js:415-418 | The loop builds exactly the received vectors of the current router. |
| Simulation.UpdateRouter | script.js:415-421 | Gathering and relaxing computes exactly one engine step, and the result tells whether the vector changed. |
| Simulation.AnyUpdated | script.js:442-448 | The scan with `break` is true exactly when some router raised its flag. |
| Simulation.StepRouters | script.js:390-448 | The router part of one step: the flags are cleared when a round starts, then the current router is processed. At the end of a round the scan reports whether any flag is up. |
| Simulation.DvrStep | script.js:383-473 | The body of `runDvrStep` on the global state computes exactly the step function. |
| Simulation.DvrRun | script.js:476-495 | The `runDvr` loop computes exactly the specified run. |
| Simulation.NewRouter | script.js:54-64 | The constructor's loop produces the fresh router state. |
| Simulation.InsertRouter | script.js:219-221 | Constructing and storing a router computes the `addRouter` table. |
| Simulation.LinkRouters | script.js:308-317 | The neighbour pushes and direct-cost writes compute the `addLink` table. |
| Simulation.SpliceNeighbor | script.js:250-256 | One `indexOf`/`splice` removes the deleted router from the other endpoint's neighbours, or does nothing when that endpoint is gone. |
| Simulation.DetachLinks | script.js:241-258 | The loop over links collects exactly the links touching the deleted router and unlinks it from every neighbour list. |
| Simulation.RemoveLinks | script.js:260-263 | The collected links are deleted and all other links kept. |
| Simulation.DropRouter | script.js:265-274 | Every other router forgets the deleted id in its vector and next hops, and the router itself is removed. |
| Simulation.DeleteFromTables | script.js:240-274 | The three loops of `deleteRouter` compute exactly the specified router and link tables. |
| Simulation.Network.constructor | script.js:37-46 | The page starts with no routers or links, counter 1, not running, not converged, round 0, index 0, and the invariant holds. |
| Simulation.Network.Reset | script.js:513-521 | `resetSimulation` returns to the initial state and keeps the invariant. |
| Simulation.Network.AddRouter | script.js:218-228 | The new id is the old counter value and was unused. The router table becomes the `addRouter` table, the counter moves on by one, and the invariant holds. |
| Simulation.Network.DeleteRouter | script.js:231-282 | An unknown id changes nothing. Otherwise the router and every link touching it are gone, and the invariant holds. |
| Simulation.Network.AddLink | script.js:285-322 | The outcome is SelfLink, DuplicateLink (either orientation) or Added. Nothing changes unless Added. When Added, the link is stored under `from-to` and the routers are linked. The invariant holds, whether or not a run is in progress. |
| Simulation.Network.RunDvrStep | script.js:383-473 | One step of the engine on the page state. The result is whether the simulation is still running. |
| Simulation.Network.RunDvr | script.js:476-495 | `runDvr` does nothing while a run is on. Otherwise it resets the round counters and steps until the engine stops. |
| Simulation.Network.FindPath | script.js:325-380 | `findPath` on the current tables returns the specified outcome. |
| Globals.IdsCount | script.js:390 | The ascending id list names every router exactly once. Its length is the router count. |
| Globals.StepNetValid | script.js:383-473 | A step keeps the invariant, the links and the counter. With fewer than 2 routers it only stops the run. Mid-round it moves to the next router. At the end of a round, it converges exactly when no flag is up; otherwise it starts the next round, and it keeps running exactly while unconverged below 20 rounds. |
| Globals.StepNetRouters | script.js:393-421 | The step's router table is the current router processed, after the flags were cleared if a round is starting. |
| Globals.StepNetRound | script.js:393-460 | A step advances the round in progress by one router, and a step that reports convergence leaves a fixed point. |
| Globals.RunFromValid | script.js:486-494 | The `animateStep` chain ends stopped, with the invariant, links, counter and router set kept. |
| Globals.RunDvrValid | script.js:476-495 | `runDvr` ends stopped, keeping the invariant, the links, the counter and the router set. |
| Globals.RunDvrFewRouters | script.js:384-388 | With fewer than two routers `runDvr` changes no table and ends unconverged in round 0. |
| Globals.RunDvrRounds | script.js:476-495 | With two routers or more, the tables after `runDvr` are the completed rounds. A converged run stops at a fixed point after fewer than 20 counted rounds. An unconverged run stops with the counter at 20. |
| PyDvr.SeedNeighbors | dvr.py:49-58 | The initialisation loops compute the node's starting vector and next hops. |
| PyDvr.InitialNodeEntries | dvr.py:46-58 | A node starts with an entry for every node. Each linked neighbour gets its link cost with itself as next hop. Every other node gets infinity, or 0 for the node itself, and no next hop. |
| PyDvr.Node.constructor | dvr.py:46-58 | `Node.__init__` builds exactly the initial state, with the flag lowered. |
| PyDvr.Node.UpdateDistanceVector | dvr.py:60-74 | The vector and next hops become the relaxation with `.get(dest, inf)` reading. The result is true exactly when the vector changed, and the flag is raised when it did. |
| PyDvr.CreateNodes | dvr.py:77 | The dictionary comprehension builds one initial node per topology entry. |
| PyDvr.UpdateFrameOthers | dvr.py:120-147 | Once converged, `update` does nothing. Otherwise only the frame's node changes its vector, next hops or neighbours. |
| PyDvr.UpdateFrameCounters | dvr.py:120-142 | A mid-round frame keeps the counters. A round-start frame resets or increments `stable_iterations`. It converges exactly when the previous round was quiet and the one before was too, and it increments `iteration` unless it converges. |
| PyDvr.UpdateStep | dvr.py:117-147 | The body of `update(frame)` computes the frame function. |
| PyDvr.RoundStart | dvr.py:128-142 | The round-start bookkeeping loop computes the round-start function. |
| PyDvr.UpdateCurrent | dvr.py:144-147 | Processing the frame's node computes the node step and records whether anything changed. |
| PyDvr.FrameIndex | dvr.py:124 | Frame `r * len(node_order) + k` selects node `k` of round `r`. |
| PyDvr.AnimStep | dvr.py:117-147 | One frame preserves the animation invariant and advances the position by one node. The invariant says: converged means a fixed point, two stable rounds and at least 2 iterations; otherwise `iteration` counts the rounds begun and `total_updated` mirrors the flags. |
| PyDvr.AnimInvInitial | dvr.py:77-78 | The freshly built nodes and the initial globals satisfy the animation invariant. |
| PyDvr.RunFramesInv | dvr.py:175 | Running the frames preserves the animation invariant to the end. |
| PyDvr.InitialDraw | dvr.py:117-147 | The initial draw's `update(0)` starts round 1 and processes the first node; the timer's frames then run with `iteration` one round ahead. |
| PyDvr.AnimationOutcome | dvr.py:110-175 | With no nodes there is no frame and nothing changes. Otherwise, after the initial draw and the `max_frames` frames, `iteration` is at most 21. A converged animation ends at a fixed point, after at least 3 iterations and two stable rounds. An unconverged one ends with `iteration` at 21. |
| PyDvr.Animate | dvr.py:76-78 | The script builds the nodes and the animation state, then plays the animation: nothing without nodes, otherwise the initial draw and every frame. |
| PyDvr.RunAnimation | dvr.py:175 | `FuncAnimation` without `init_func` calls `update(0)` for its initial draw, then `update` on frames `0 .. max_frames - 1`, in order. |
| PyDvr.Animation.constructor | dvr.py:110-115 | The globals start with round 0, unconverged, 0 stable rounds and no update recorded, over the initial nodes. |
| PyDvr.Animation.Update | dvr.py:117-147 | `update(frame)` replaces the globals with the frame function's result. |

## Left out

- Rendering: the DOM, SVG and canvas, the routing-table panels, popups, colours, `statusMessage` text, drag handling, and all of `dvr.py`'s matplotlib and networkx drawing. They compute nothing the engine reads.
- Router positions (`x`, `y`, `Math.random` placement, `spring_layout`). They do not affect routing.
- Timing. The 800 ms `setTimeout` of `runDvr` and the `FuncAnimation` interval become a plain loop, so the run is modelled as one uninterrupted sequence of steps.
- Input parsing. The link-cost input's `parseInt`/`cost < 1` check is the `cost >= 1` precondition of `Simulation.Network.AddLink`. The routers it names come from a selection of existing routers, hence `a, b in routers`. `dvr.py`'s `input()` and `exit()` are replaced by the `PyDvr.WellFormed` topology and a link table handed in.
- The UI lock. The router drag and click handlers (script.js:125-146) and the add-router, delete-router, add-link, run and reset buttons (script.js:641-693) return at once while `simulationRunning` is set, so `Simulation.Network.AddRouter` and `Simulation.Network.DeleteRouter` require `!simulationRunning`. The link popup's confirm handler (script.js:698-710) does not check the flag, so `Simulation.Network.AddLink` admits a running simulation; that no link is added mid-run in practice rests on the popup being opened only through the locked add-link button. The find-path handlers (script.js:672-684, 712-718) do not check it either, and need not: `findPath` changes nothing, and `runDvr` clears `isConverged` when a run starts (script.js:480). `Simulation.Network.RunDvrStep` is only reached from `runDvr`'s chain, so it requires a running simulation.
- `selectedRouter`. It only chooses which id the delete button passes to `deleteRouter`.
- Floating point. JavaScript numbers and Python floats are modelled as unbounded integers plus an explicit infinity. No cost here is fractional or large enough to round.
- Identifiers. `addRouter` names each router by the decimal string of `nextRouterId` (script.js:219). The neighbour entries, link endpoints and `selectedRouter` hold these same strings, so comparisons such as `routerId !== id` (script.js:68) and `link.from === routerId` (script.js:244) compare string with string. The model stands each id for the natural number its string spells, so equal strings are equal numbers. These strings are canonical integer keys, which `Object.keys(routers)` lists in ascending numeric order (`Engine.SortedIds`). The node names of `dvr.py` are arbitrary strings read by `input()`; the model numbers them.
- Aliasing. The `routers` object of `script.js` is modelled as a map from ids to router values inside `Network`, so two handles to one `Router` object are not modelled. `Routers.Router` models the class on its own.
- Iteration order of `dvr.py`'s dictionaries. `node_order` is a parameter listing the nodes once each. The destination loop of `update_distance_vector` updates each destination independently, so its order does not matter and is not fixed.
- Duplicate neighbours in `dvr.py`. A link entered twice appears twice in a neighbour list; the model allows such lists, but proves nothing that depends on them.
- Stale routes after `deleteRouter`. Another router may keep a finite cost or a next hop through the deleted router, and `isConverged` is not cleared. `Paths.Walk` turns the lookup of a next hop that names a deleted router, which throws a TypeError in `script.js`, into the `MissingRouter` error. A later run does not repair the stale costs, because relaxation never raises a cost. It can therefore converge with a next-hop cycle, and `findPath` then reports a loop (`StaleRoutes.StaleRouteLoop`; see Findings).
- Paths.FindPathFound: states what a found path is, not that one is found. That `findPath` never meets a loop at convergence is proved only for tables that keep `Descent.Descends`: it holds for tables reached from the empty network by `addRouter`, `runDvr` and any `addLink` that raises no entry (`Descent.RunDvrFindsPath`). It is not claimed after `deleteRouter`, which the source leaves with stale routes (`StaleRoutes.StaleRouteLoop`). It is not claimed after an `addLink` that raises an entry either. Such an edit can break the invariant: on the converged line 4-1-2-3 with unit costs, `addLink(1, 3, 5)` raises router 1's cost to 3 from 2 to 5 while router 4 still routes to 3 through router 1 at cost 3. The engine is proved to keep the invariant, not to restore it, so nothing is claimed about the runs that follow.
- Global convergence. Neither source promises convergence within its cap, and a long chain can miss it: on a line of 25 routers with unit costs, processed in ascending order, the first router's cost toward the far end is still infinite after 20 rounds, since news from the far end moves one router per round. The model proves what each outcome means instead: a converged run ends at a fixed point, and an unconverged run stops at the cap.
- Simulation.Network.DeleteRouter: models `deleteRouter` as written, keeping the stale routes. The corrected definition, `Descent.DeleteRouterRebuilt`, is proved separately (see Findings) and is not wired into `Network`, so that the class stays the page as it behaves.
- Simulation.Network.AddLink: the precondition `cost >= 1` stands for the caller's input check. Non-positive costs, which `dvr.py` accepts, are modelled by `PyDvr` only.

## Findings

| source | as written | input that shows it | evidently intended | confidence | as-written member | corrected member |
|---|---|---|---|---|---|---|
| script.js:265-270 | `deleteRouter` only drops the deleted id's own entries. Costs and next hops that other routers learned through it stay, and relaxation never raises a cost, so a later run keeps them. | Converged line 1-2-3-4, unit costs; `deleteRouter(3)`; `addLink(2, 4, 10)`; `runDvr`: it converges with router 1 at cost 3 to 4 via 2 and router 2 at cost 4 via 1, and `findPath(1, 4)` reports "Loop detected". | After any edit, a converged run leaves next hops along which `findPath` reaches every router of finite cost without a loop. | not executed | StaleRoutes.StaleRouteLoop | Descent.DeleteRouterRebuiltKeeps |
