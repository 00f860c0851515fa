# VRPB solver core in Dafny

This project models the core of a solver for the Vehicle Routing Problem with
Backhauls (`main.cpp`). A fleet of vehicles of equal capacity leaves a depot,
delivers to linehaul customers, collects from backhaul customers and returns.
No backhaul may come before a linehaul on a route. The solver has four parts,
and the model has one module for each, plus two modules for the data:

- `Instance` (`instance.dfy`): the node (struct `Nodo`) and its kind. It also
  holds the id-to-node lookup and the lists of linehauls and backhauls that the
  builder filters out of the node list.
- `Routes` (`routes.dfy`): a route (struct `Ruta`) and a solution (struct
  `Solucion`), both as values, with their cached loads and costs. The module
  states what those figures should agree with: `RouteConsistent` and
  `Consistent`. It also defines `Preserves`, what every local-search move keeps:
  route shapes, the multiset of all ids, consistency and the capacity bounds.
- `Evaluation` (`evaluation.dfy`): `calcular_costo_ruta` and
  `calcular_costo_total`, as loops proved against `PathCost`, `SumCosts` and the
  reference recomputation `Recosted`.
- `Builder` (`builder.dfy`): `generar_solucion_inicial`, in the phases the code
  runs:
  - open the routes;
  - the unchecked first round of linehauls;
  - the capacity-checked linehaul sweeps;
  - close the routes;
  - the backhaul sweeps;
  - settle the used loads;
  - evaluate.

  Each sweep is a loop proved against a recursive reference function
  (`FillSweep`, `BackSweep`). Ghost per-route segments record which customers
  each route received.
- `SwapMove` (`swap.dfy`): `swap_nodos`, built out of these steps:
  - the route and kind draws;
  - candidate collection;
  - the candidate shuffles;
  - the nested first-fit scan;
  - the field-by-field exchange;
  - the loop of attempts.

  Each method is proved against a function: `Attempt`, `FirstFit`,
  `FirstSuccess`. Those functions are proved to keep `Preserves`.
- `Annealing` (`annealing.dfy`): `simulated_annealing`. The nested loops become
  methods proved against:
  - the run functions `Neighbour`, `Decide`, `Consider`, `Rounds` and `Anneal`;
  - the invariant `Kept`: the current and best solutions are reachable from the
    initial one by preserving moves, and the best is no dearer than either.

Randomness is an input:
- The two builder shuffles are orderings `lineOrder` and `backOrder`. Each must
  be a permutation of the instance's linehauls or backhauls.
- Every attempt of every swap call gets a `SwapDraw`:
  - the kind;
  - two route draws;
  - the keys of the two candidate shuffles.

  `swapDraws(c)(t)` is attempt `t` of swap call `c`.
- The Metropolis test is the oracle `accept(j, delta, temp)`, the outcome of the
  `j`-th uniform draw against `exp(-delta / temp)`.

The first round of the builder (lines 184-191) deals one linehaul to each
route without a capacity check, so a linehaul whose demand alone exceeds the
capacity stays on its route. The delivered-load bound is therefore proved
only for routes holding two or more linehauls, not for every route. The swap
is the only local-search move in `main.cpp`.

## Model

| member | source | states |
|---|---|---|
| `Instance.OfKind` | main.cpp:161-167 | A node is in the filtered list exactly when it is an instance node of the given kind, and the list is no longer than the node list. |
| `Instance.OfKindCounts` | main.cpp:163-166 | The filtered list holds every node of the given kind as often as the node list does, and no node of another kind. |
| `Instance.NodeMap` | main.cpp:162-164 | The lookup's keys are exactly the instance's ids. Each id maps to an instance node carrying that id. |
| `Instance.NodeMapFinds` | main.cpp:162-164 | When ids are unique, looking up a node's id returns that very node. |
| `Routes.PathCostSplit` | main.cpp:46-54 | A route's cost splits at any inner node into the costs of the two halves that share it. |
| `Routes.SumCostsUpdate` | main.cpp:315-316 | Replacing one route changes the summed total by exactly the change of that route's cost. |
| `Routes.PreservesTrans` | main.cpp:352-356 | Whatever one swap move keeps, two successive moves keep. |
| `Evaluation.RouteCost` | main.cpp:46-54 | The returned cost is the sum of the distances between consecutive nodes. It is 0 for a route with fewer than two nodes. |
| `Evaluation.SumRouteCosts` | main.cpp:315-316 | The total is the sum of the cached costs of all routes. |
| `Evaluation.TotalCost` | main.cpp:57-65 | The number of routes is unchanged. Every route keeps its nodes and loads and gets its cost recomputed from its nodes. The stored total and the returned value are both the sum of the new route costs. |
| `Evaluation.TotalCostRecosted` | main.cpp:57-65 | What `TotalCost` returns is exactly the reference recomputation `Recosted`. |
| `Evaluation.RecostedAgrees` | main.cpp:57-65 | After evaluation every cached route cost agrees with its nodes, and the total is their sum. |
| `Evaluation.RecostedFixpoint` | main.cpp:57-65 | Evaluation leaves unchanged a solution whose cached costs already agree. |
| `Evaluation.RecostedIdempotent` | main.cpp:57-65 | Evaluating twice without a mutation in between gives what evaluating once gives. |
| `Evaluation.RecostedConsistent` | main.cpp:57-65 | Evaluating routes whose nodes and loads already agree yields a consistent solution. |
| `Builder.OpenRoutes` | main.cpp:173-182 | There are exactly `vehicles` routes, each holding only the depot with all figures zero. |
| `Builder.DealFirstRound` | main.cpp:184-191 | For r below min(vehicles, linehauls), route r gets the r-th shuffled linehaul, with no capacity or used-id check. The placed linehauls are exactly that prefix, and their ids form the used set. |
| `Builder.FillSweepKeeps` | main.cpp:196-207 | A linehaul sweep keeps the dealing state: segments grow only at their back, the placed linehauls stay a prefix of the ordering, routes with two or more linehauls stay within capacity, and every newly placed id is fresh. |
| `Builder.FillSweepStops` | main.cpp:196-207 | A sweep that places nothing changes nothing, and then no route admits the next linehaul. |
| `Builder.SweepLinehauls` | main.cpp:196-207 | One sweep returns what the reference sweep `FillSweep` returns. It reports progress exactly when it placed a linehaul. |
| `Builder.FillLinehauls` | main.cpp:193-208 | The repeated sweeps keep the sweep invariant. They stop only when the linehauls run out or no route admits the next one. |
| `Builder.CloseRoutes` | main.cpp:210-213 | The depot is appended to every route, and nothing else changes. |
| `Builder.BackSweepKeeps` | main.cpp:219-235 | A backhaul sweep keeps the placing state. Backhauls go just before the closing depot, only onto routes that deliver something, as a prefix of the ordering. Picked load stays within capacity and ids are fresh. |
| `Builder.BackSweepStops` | main.cpp:219-235 | A sweep that places nothing changes nothing, and then no route admits the next backhaul. |
| `Builder.SweepBackhauls` | main.cpp:219-235 | One sweep returns what the reference sweep `BackSweep` returns. It reports progress exactly when it placed a backhaul. |
| `Builder.PlaceBackhauls` | main.cpp:215-236 | The repeated sweeps keep the placing invariant. They stop only when the backhauls run out or no route admits the next one. |
| `Builder.SettleLoads` | main.cpp:238-241 | Every route's used load becomes delivered plus picked, and nothing else changes. |
| `Builder.LinehaulPhase` | main.cpp:173-213 | Each route is depot, its linehauls, depot, delivering their demand. The placed linehauls are a prefix of the ordering starting with one per route. Later ones respect capacity, the phase ends only when nothing more fits, and ids placed after the first round are fresh. |
| `Builder.BackhaulPhase` | main.cpp:215-241 | Each route is depot, linehauls, backhauls, depot, with settled loads. The placed backhauls are a prefix of the ordering, only on delivering routes and within capacity. The phase ends only when nothing more fits, and their ids are fresh. |
| `Builder.BuildInitial` | main.cpp:160-244 | The builder's whole contract: the route shapes and figures, the prefixes placed, the first-round dealing, the capacity bounds, the stop conditions of both phases, no id placed twice, and consistency under unique ids. |
| `Builder.BuiltStops` | main.cpp:193-236 | The capacity bound and both stop conditions, established on the intermediate routes, hold on the finished routes too. |
| `Builder.FinishedShape` | main.cpp:179-242 | Every built route is depot, its linehauls, its backhauls, depot. Delivered and picked are the demands of the two segments, used is their sum and cost is the path cost. So every route starts and ends at the depot. |
| `Builder.PlacedUnique` | main.cpp:175-233 | When the first round's ids are distinct, all placed linehauls and backhauls carry pairwise distinct ids. |
| `Builder.BuildConsistent` | main.cpp:160-244 | With unique ids and a known depot, the built solution is consistent: no depot inside a route, no backhaul before a linehaul, and cached loads and costs agree with the nodes. |
| `Builder.BuiltRouteConsistent` | main.cpp:229-241 | A route of depot, linehauls, backhauls, depot whose nodes the lookup resolves is consistent once its loads are settled and its cost computed. |
| `SwapMove.FirstRoute` | main.cpp:252-258 | The first route drawn is one of the solution's routes. |
| `SwapMove.SecondRoute` | main.cpp:259-260 | The second route is one of the routes and differs from the first, as the redraw loop ensures. |
| `SwapMove.SecondRouteReachesAll` | main.cpp:259-260 | Every route other than the first is the outcome of some second draw. |
| `SwapMove.PositionsSound` | main.cpp:267-270 | Every candidate is an inner position whose node has the target kind, and the candidates increase. |
| `SwapMove.PositionsComplete` | main.cpp:267-270 | Every inner position whose node has the target kind is a candidate. |
| `SwapMove.Candidates` | main.cpp:267-270 | The collected list is exactly the reference candidate list `Positions`. |
| `SwapMove.ShufflePermutes` | main.cpp:274-275 | The drawn order is a permutation of the candidates. |
| `SwapMove.ShuffleReachesAll` | main.cpp:274-275 | Some keys draw every permutation of the candidates. |
| `SwapMove.FirstInRowSpec` | main.cpp:281-320 | For one candidate of the first route, the inner scan finds a fitting partner exactly when one exists, and no earlier partner fits. |
| `SwapMove.FirstFitSpec` | main.cpp:277-321 | The nested scan finds a fitting pair exactly when one exists. The pair it finds is the first in scan order. |
| `SwapMove.ScanPairs` | main.cpp:277-321 | The nested loops report a pair exactly when `FirstFit` finds one, and they report that pair. |
| `SwapMove.ApplyExchange` | main.cpp:301-316 | The field-by-field update yields exactly the solution `Exchange` describes. |
| `SwapMove.ExchangeEffect` | main.cpp:285-316 | Only the two drawn routes change, and their nodes at the two positions are exchanged. The exchanged kind's load of the first route changes by minus its node's demand plus the other node's demand, and symmetrically for the second. The other kind's loads are unchanged. Used load is delivered plus picked. Both routes' new costs are the path costs of their new nodes, and the total is re-summed from the route costs. When the old total agreed with the old routes, it moves by the change of the two route costs. |
| `SwapMove.ExchangeShape` | main.cpp:302 | An exchange keeps the number of routes, and every route's length, end nodes and inner kinds. Every id stays known. |
| `SwapMove.ExchangeIds` | main.cpp:302 | An exchange keeps the multiset of all node ids: no customer is lost or duplicated. |
| `SwapMove.ExchangeConsistent` | main.cpp:285-316 | An exchange keeps a consistent solution consistent. |
| `SwapMove.ExchangeCapacity` | main.cpp:298-307 | An exchange that passed the capacity check keeps every delivered and picked load within capacity. |
| `SwapMove.ExchangePreserves` | main.cpp:285-316 | A fitting exchange of two inner nodes of the drawn kind keeps everything `Preserves` names. |
| `SwapMove.ExchangedPreserves` | main.cpp:301-318 | Every exchange the move can make keeps everything `Preserves` names. |
| `SwapMove.AttemptOnNone` | main.cpp:272 | An attempt fails when either drawn route has no candidate of the drawn kind. |
| `SwapMove.AttemptOnPick` | main.cpp:272-321 | With candidates on both routes, the attempt is the scan over their shuffled orders. |
| `SwapMove.TryAttempt` | main.cpp:255-322 | One attempt returns the reference outcome `Attempt`. On failure the solution is unchanged. |
| `SwapMove.TryAttemptOn` | main.cpp:262-321 | The attempt on the drawn routes returns the reference outcome `AttemptOn`. On failure the solution is unchanged. |
| `SwapMove.TryPickShuffled` | main.cpp:274-321 | Shuffling and scanning returns the reference outcome `PickShuffled`. On failure the solution is unchanged. |
| `SwapMove.TryPick` | main.cpp:277-321 | Scanning and exchanging returns the reference outcome `Pick`. On failure the solution is unchanged. |
| `SwapMove.AttemptExchanged` | main.cpp:255-322 | A successful attempt exchanges two inner nodes of the same kind on two different routes, and that exchange passed the capacity check. |
| `SwapMove.AttemptOnExchanged` | main.cpp:262-321 | A successful attempt on the drawn routes is such an exchange, at positions the lemma names. |
| `SwapMove.PickShuffledExchanged` | main.cpp:274-321 | A successful scan of the shuffled candidates is such an exchange, at positions the lemma names. |
| `SwapMove.PickExchanged` | main.cpp:277-321 | The exchange of the first fitting pair is such an exchange, at positions the lemma names. |
| `SwapMove.AttemptPreserves` | main.cpp:255-322 | A successful attempt keeps everything `Preserves` names. |
| `SwapMove.FirstSuccessSpec` | main.cpp:255-323 | The attempts loop fails exactly when every attempt fails. A success is the outcome of one of the attempts. |
| `SwapMove.SwapSpec` | main.cpp:250-324 | The move fails exactly when all its attempts fail. A success is one attempt's outcome. |
| `SwapMove.Swap` | main.cpp:250-324 | On success the result is the first successful attempt's outcome: a capacity-checked exchange that keeps `Preserves`. On failure the solution is returned unchanged. |
| `SwapMove.SwapPreserves` | main.cpp:250-324 | A successful move is such an exchange, keeps `Preserves`, and leaves a solution the move applies to again. |
| `Annealing.MovedKeeps` | main.cpp:353 | A successful swap call keeps `Preserves`, and its result can be moved again. |
| `Annealing.NeighbourKeeps` | main.cpp:349-357 | A neighbour built from a solution keeps `Preserves` relative to it, and can be moved again. |
| `Annealing.DecideRules` | main.cpp:359-374 | A failed neighbour changes nothing but the call count. A cheaper one or one of equal cost is always taken, and a dearer one is taken exactly when its test passes. The best changes only to a strictly cheaper current solution, so its cost never rises. |
| `Annealing.DecideKeeps` | main.cpp:359-374 | The acceptance step keeps the run invariant `Kept`, and the best cost does not rise. |
| `Annealing.ConsiderKeeps` | main.cpp:348-375 | One inner round keeps `Kept`, and the best cost does not rise. |
| `Annealing.RoundsKeep` | main.cpp:348-375 | Any number of inner rounds at one temperature keep `Kept`. |
| `Annealing.OuterKeeps` | main.cpp:347-379 | A property that every temperature's rounds keep still holds when the outer loop ends. |
| `Annealing.AnnealKeeps` | main.cpp:347-379 | The whole outer loop keeps `Kept`. |
| `Annealing.AnnealBest` | main.cpp:342-381 | The returned best is never dearer than the initial solution. It keeps the initial route shapes and ids, and it is consistent and within capacity whenever the initial one is. |
| `Annealing.AnnealIdle` | main.cpp:342-381 | A run that never calls the swap move returns its start as both current and best, with no requirement on the start. That holds with `max_iteraciones <= 0`, an initial temperature of at most 10, `iteraciones_por_temperatura <= 0`, or `swaps_por_vecino <= 0` (each neighbour is then the current solution, taken back at equal cost). |
| `Annealing.IdleRounds` | main.cpp:348-375 | With `swaps_por_vecino <= 0` or `iteraciones_por_temperatura <= 0`, the rounds of one temperature leave current and best at the start. |
| `Annealing.Move` | main.cpp:353 | One swap call returns the reference outcome `Moved`, and a success can be moved again. |
| `Annealing.NeighbourStep` | main.cpp:352-356 | One swap call of the neighbour loop either leaves one call fewer to make from its result, or ends the neighbour without a solution. |
| `Annealing.BuildNeighbour` | main.cpp:349-357 | The loop of up to `swaps_por_vecino` swap calls returns the reference `Neighbour`: the candidate after all calls, or failure at the first failed call, with the count of calls used. |
| `Annealing.Accept` | main.cpp:359-374 | The acceptance branches compute exactly `Decide`. |
| `Annealing.TakeRound` | main.cpp:348-375 | One inner round returns the reference round `Consider`, and the current solution can still be moved. |
| `Annealing.RoundsAt` | main.cpp:348-375 | The inner loop returns `Rounds` over `iteraciones_por_temperatura` rounds. |
| `Annealing.Cool` | main.cpp:347-378 | One outer iteration does the rounds and cools the temperature by `alfa`, and the rest of the run from there is the run from before. |
| `Annealing.AnnealFrom` | main.cpp:342-381 | The outer loop returns the best solution of the reference run `Anneal`. It runs at most `max_iteraciones` iterations, each at a temperature above 10, and stops at `max_iteraciones` or at the first temperature that is not above 10. |
| `Annealing.SimulatedAnnealing` | main.cpp:330-382 | The result is the best solution of the reference run. It is never dearer than the initial solution and keeps everything `Preserves` names. The outer loop runs at most `max_iteraciones` times, and stops only when that bound or the temperature limit is reached. |

## Left out

- `leer_instancia`, `escribir_salida` and `main`: file input and output, printing, timing and the command line; only the core is modelled.
- `distancia`: the Euclidean formula with `sqrt` and `pow` is replaced by the parameter `dist`, any non-negative function of two node ids. The node coordinates are therefore not part of `Node`.
- Floating point: demands, capacity, loads and costs are unbounded integers. Temperature and cooling factor are reals. No rounding is modelled.
- `exp(-delta / T)` and the uniform draw: the oracle `accept`. A neighbour of equal cost is always taken, because `exp(0) = 1` exceeds every draw in [0, 1).
- The random number generators: the model reasons about outcomes of the draws, not their distributions.
  - Each function seeds an `mt19937` from `time(0)`, so calls within the same second repeat their draws. The inputs may be any sequences, repeating ones included, but nothing specific to the clock is modelled.
  - The route draws reduce a raw draw onto the routes by remainder.
  - A shuffle picks the next element by key.
- SwapMove.Swap: requires `Movable` (two or more routes, none empty, every id known to the lookup). The source would loop forever in the redraw at line 260 with one route, underflow the bound with an empty route, and throw from `.at` with an unknown id.
- Annealing.AnnealFrom: requires a `Movable` start, because its loops call the swap move, which needs one. That also excludes starts the source returns unchanged without ever calling `swap_nodos`: any start when `max_iteraciones <= 0`, the initial temperature is at most 10, `iteraciones_por_temperatura <= 0` or `swaps_por_vecino <= 0`. `Annealing.AnnealIdle` states the result for all of those starts without the requirement.
- Annealing.SimulatedAnnealing: requires a `Movable` start for the same reason, and excludes the same never-swapping starts; `Annealing.AnnealIdle` covers them.
- Annealing.Moved: yields no solution when `Movable` fails. Every solution a run reaches keeps `Movable`, so that case never arises.
- Evaluation.RouteCost: `calcular_costo_ruta` looks both ids of every pair up with `mapa_nodos.at`, which throws `std::out_of_range` on an id the lookup does not know, and the program ends. The model takes any id to `dist` and computes a cost instead. The same holds for `Evaluation.TotalCost`.
- Builder.BuildInitial: with an id the lookup does not know, the cost evaluation called at line 242 throws while the model returns a costed solution. The usual case is a missing depot: with no node of type 0 the depot id stays -1, and the routes become `[-1, ..., -1]`. The model promises consistency only under a known depot and unique ids.
- Builder.BuildInitial: the delivered-load bound is stated only for routes holding two or more linehauls, because the first round places one linehaul per route without a capacity check.
- Builder.BuildInitial: "no id placed twice" is conditional on the first round's ids being distinct. That round checks nothing, so duplicate ids in the instance can reach two routes.
- Builder.BuildInitial: consistency is conditional on unique ids and a known depot. Otherwise the lookup may return a different node than the one placed.
- Node kinds other than 0, 1 and 2, and negative vehicle counts, arise only from parsing, which is left out. `NodeKind` has three values, and the vehicle count is a `nat`.
- Annealing.AnnealFrom: the number of outer iterations is a ghost out-parameter, because the source returns only the best solution.
- The `Run` counters `calls` and `draws` only index the random inputs; they stand for the positions of the generators.
- A Relocate move: `main.cpp` has none.
