# Delivery route optimisation: a Dafny model

This project models the routing and tonnage logic of a delivery-management backend. The backend is an Express server with a Python helper script. A delivery round starts from a depot (`departure_location`), visits clients that have coordinates and ordered products, and is shared among the available vehicles.

The model covers eight parts of the backend, one Dafny module each:

| module | source | what it does |
|---|---|---|
| `NearestNeighbor` | `python_solver/vrp_solver_script.py` | The only route builder. Vehicles leave one after another. Each goes greedily to the nearest unvisited client until it has served its quota `ceil((n-1)/num_vehicles)`, then returns to the depot. The last vehicle has no quota. |
| `Tonnage` | `services/calculTonnage.js` | Weighs order lines against the product catalogue. A unit table converts to grams; the result is in tonnes. |
| `DistanceMatrixService` | `services/distanceMatrixService.js` | The Encoded Polyline Algorithm Format decoder, and the guard of `getDetailedRoutePath` for routes with fewer than two coordinates. |
| `VrpController` | `controllers/vrpController.js` | The simplified optimiser: validation, per-client tonnage, round-robin assignment of client i to vehicle i mod k, and depot → clients → depot paths. |
| `VrpService` | `services/vrpService.js` | `solveVRPService`: validation, the empty-fleet default, the location list, translation of solver stop indices into coordinates and client ids, and the choice between OSRM and solver distances. |
| `VrpRoutes` | `routes/vrpRoutes.js` | The `POST /optimize` handler: the same pipeline as the service, answered over HTTP, plus the itinerary logged for the first route. |
| `DemandController` | `controllers/calculetonnage..js` | `optimizeVrp`: input check, dropping unknown clients, demand and capacity totals, the unmet-demand computation and the solver verdict. |
| `CapacityRoute` | `routes/calculeTonnage.js` | The `POST /optimize` capacity gate: demand and capacity totals, `sufficientVehicles`, and a VRP run only when the capacity covers the demand. |

`Common` holds the shared vocabulary:
- JSON request values, with `Undefined` for an absent field.
- JavaScript truthiness and the "array of two numbers" tests.
- `Option`/`Result`.
- Left-to-right sums.
- `Collect`, a concatenating map that models `for` loops which push zero or more items per element.

Where the source mutates state in a loop, the model has a `method` with a `while`/`for` loop. Each such method is proved equal to a specification function, and the properties are lemmas about that function.

Examples of such loops:
- the solver's nested loops;
- the tonnage accumulation;
- the polyline decoder's `do … while` loops;
- the round-robin `shift`/`push` loop;
- the service's route loop with `continue`;
- the handlers' `forEach` totals.

Everything outside the core is an input of the model:
- the database;
- OSRM and its matrices and detailed paths;
- the solver process and its JSON answer;
- the demand calculator.

Arithmetic is exact. Distances, durations and tonnages are `real`. Polyline coordinates are integers in units of 1e-5 degree. The decoder's 32-bit `|` and `<<` are written out modulo 2^32.

A JavaScript `TypeError` is modelled as an error result carrying the engine's message. An example is reading `.id` of `null`, or `.stops.length` of a handler entry that has no `stops`. The `catch` blocks of `routes/vrpRoutes.js`, `routes/calculeTonnage.js` and `controllers/calculetonnage..js` then report that message, in their reply's `message` or `error` field. The `catch` of `controllers/vrpController.js` answers its fixed message, `VrpController.InternalMessage`; the `error` field it adds is not modelled.

Three places where the code behaves differently from what its comments or neighbours suggest; the model follows the code:
- **Invalid solver routes in `routes/vrpRoutes.js`.** The handler keeps a solver route with invalid `stops_indices` as `{...route, path: [], distance: 0, duration: 0}`, with no `stops` field. When that route is the first one, the logging at line 166 reads `firstRoute.stops.length` and throws, so the answer is a 500 from the `catch`. `VrpRoutes.OptimizeReply` returns `InternalError(StopsLengthError)` in that case.
- **The demand controller reads `routes`, the solver writes `optimized_routes`.** The controller reads `result.routes` and `step.client_id`. The Python script answers with `optimized_routes` and stop indices. On the script's own answer, therefore, no client is "in the solution", and the unmet demand equals the whole demand (`DemandController.NoRoutesArrayNamesNoClient`, `DemandController.NoneServedAllUnmet`). The figure is only logged, so the answer does not change.
- **Non-integer vehicle counts in `controllers/vrpController.js`.** A count such as 2.5 passes the check at lines 20-22. `Array.from({length: 2.5})` then makes two vehicles. With more than two clients, the deal's `assignedClients[2 % 2.5].push` at line 45 throws. With one or two clients, the path loop runs `i = 2` and reads `assignedClients[2].length`, which throws. A whole count of 2^32 or more also passes the check, and `Array.from` throws a RangeError at line 40. `VrpController.WholeCount` and `VrpController.ServerErrors` give the resulting 500.

## Model

| member | source | states |
|---|---|---|
| NearestNeighbor.Lookup | python_solver/vrp_solver_script.py:44-51 | A matrix entry can be read exactly when both indices are in range; otherwise the script's `IndexError` path is taken. |
| NearestNeighbor.Clients | python_solver/vrp_solver_script.py:15 | `unvisited_clients` starts as exactly the clients 1 .. n-1, n-1 of them. |
| NearestNeighbor.Nearest | python_solver/vrp_solver_script.py:40-51 | The scan returns -1 exactly when no unvisited client can be looked up. Otherwise it returns a client whose distance is minimal among the reachable ones, the first such in ascending order. |
| NearestNeighbor.ServeNext | python_solver/vrp_solver_script.py:53-66 | One step of the inner loop. When a nearest client exists, the route grows by it, the unvisited set shrinks and the distance/duration sums grow by its leg; otherwise the loop stops. |
| NearestNeighbor.ServeClients | python_solver/vrp_solver_script.py:37-66 | The inner `while` stops for the reason the script gives: no client is left, the quota is filled on a non-last vehicle, or nothing is reachable. Every stop so far was a greedy choice. |
| NearestNeighbor.FinishRoute | python_solver/vrp_solver_script.py:68-88 | The return to the depot (or `[0, 0]` for a vehicle that served nobody) yields a route that satisfies the greedy-route predicate. It leaves exactly the clients that route did not serve. |
| NearestNeighbor.BuildRoute | python_solver/vrp_solver_script.py:26-88 | One vehicle's iteration builds a greedy route and removes exactly its clients from the unvisited set. |
| NearestNeighbor.SolveVrpWithNearestNeighbor | python_solver/vrp_solver_script.py:5-90 | An empty matrix gives no routes. Otherwise the result satisfies `NearestNeighborRoutes`: at most one route per vehicle, each built greedily from the clients left by its predecessors, a route only while clients remain. |
| NearestNeighbor.RouteShape | python_solver/vrp_solver_script.py:21-88 | Route j belongs to vehicle j+1 and runs depot → … → depot. A non-last vehicle serves at most the quota. Distance and duration are the sums of the matrix entries over consecutive stops, return leg included. |
| NearestNeighbor.NoClientTwiceInRoute | python_solver/vrp_solver_script.py:43-63 | No client appears twice in a route. A route serves only clients that the earlier routes left unvisited. |
| NearestNeighbor.NoClientInTwoRoutes | python_solver/vrp_solver_script.py:15-63 | Two different routes serve disjoint sets of clients. |
| NearestNeighbor.LeftShrinks | python_solver/vrp_solver_script.py:62-63 | The unvisited set only shrinks from route to route, and loses each route's clients. |
| NearestNeighbor.LeftIsUnserved | python_solver/vrp_solver_script.py:15-63 | After t routes, the unvisited clients are exactly the clients that no route has served. |
| NearestNeighbor.ServedAreClients | python_solver/vrp_solver_script.py:15-63 | Routes serve only client indices 1 .. n-1, never the depot. |
| NearestNeighbor.CompleteReaches | python_solver/vrp_solver_script.py:43-51 | On a complete matrix, every client can be looked up from every stop. |
| NearestNeighbor.LastRouteLeavesNothing | python_solver/vrp_solver_script.py:37-66 | On a complete matrix, the last vehicle stops only when it has visited every client it started with. |
| NearestNeighbor.LastVehicleServesRest | python_solver/vrp_solver_script.py:26-66 | When all vehicles have left on a complete matrix, no client is left. |
| NearestNeighbor.EveryClientServed | python_solver/vrp_solver_script.py:21-66 | With at least one vehicle and a complete matrix, every client is served, and only clients are served. |
| NearestNeighbor.QuotaPositive | python_solver/vrp_solver_script.py:21-24 | With at least one client, the quota `ceil(n / num_vehicles)` (or all clients when the count is ≤ 0) is at least 1. |
| NearestNeighbor.RouteServesSomeone | python_solver/vrp_solver_script.py:37-66 | A vehicle that starts while clients remain, with a positive quota or as the last vehicle, serves at least one client on a complete matrix. |
| NearestNeighbor.NoEmptyRouteWhenComplete | python_solver/vrp_solver_script.py:26-80 | On a complete matrix, every produced route serves at least one client; `[0, 0]` never appears. |
| NearestNeighbor.NoRouteAfterLastClient | python_solver/vrp_solver_script.py:26-28 | Once a route has served the last client, no further route is produced (the `break`). |
| Tonnage.FindProduct | services/calculTonnage.js:26 | `find` returns the first catalogue entry with the id, or nothing when no entry has it. |
| Tonnage.CalculerTonnageClient | services/calculTonnage.js:17-68 | The loop returns 0 when either argument is not an array. Otherwise it returns the summed grams of every line divided by 1,000,000 (`TonnageOf`). |
| Tonnage.UnitTable | services/calculTonnage.js:33-57 | Exactly the seven units g, gr, kg, tonnes, l, ml, cl have a non-zero factor: 1, 1, 1000, 1,000,000, 1000, 1 and 10 grams. |
| Tonnage.UnitCaseInsensitive | services/calculTonnage.js:30 | Two unit spellings that lower-case alike weigh alike. |
| Tonnage.UpperCaseUnits | services/calculTonnage.js:30-45 | "KG", "Kg" and "L" are read as kilograms and litres. |
| Tonnage.IgnoredLine | services/calculTonnage.js:53-63 | A line whose product is not in the catalogue, or whose unit is unknown, adds nothing to the tonnage. |
| Tonnage.FirstMatchWins | services/calculTonnage.js:26-60 | The first catalogue entry with the line's id is the one weighed, whatever follows it. |
| Tonnage.TotalGramsAppend | services/calculTonnage.js:25-64 | The gram total of two line lists together is the sum of their totals. |
| Tonnage.TonnageAppend | services/calculTonnage.js:60-67 | Tonnage is additive over concatenated line lists. |
| Tonnage.TonnageIsSumOfSingleLines | services/calculTonnage.js:60-67 | The tonnage of a list equals the sum of the tonnages of its one-line sublists, as `routes/calculeTonnage.js` computes per-client demand. |
| DistanceMatrixService.ReadValue | services/distanceMatrixService.js:11-16 | Reading a value always consumes at least one character, and the 32-bit accumulator stays below 2^32. |
| DistanceMatrixService.ReadChunks | services/distanceMatrixService.js:11-16 | The `do … while` loop ORs in the low 5 bits of each `charCode - 63` at shifts 0, 5, 10, …, and stops after the first chunk below 0x20. |
| DistanceMatrixService.DecodePolyline | services/distanceMatrixService.js:5-33 | The decoder loop returns the points of `Decode`. The empty string gives no points. |
| DistanceMatrixService.ReadEncodedNat | services/distanceMatrixService.js:11-16 | Reading the 5-bit chunks of z from some shift onward adds z shifted to that position, and ends right after the last chunk. |
| DistanceMatrixService.ZigZagRoundTrip | services/distanceMatrixService.js:17 | Zigzag decoding (`r & 1 ? ~(r >> 1) : r >> 1`) inverts the zigzag encoding of any delta within the coordinate bound. |
| DistanceMatrixService.ReadEncodedValue | services/distanceMatrixService.js:11-17 | One encoded signed value is read back exactly, and reading ends where its encoding ends. |
| DistanceMatrixService.DeltasRoundTrip | services/distanceMatrixService.js:10-28 | The outer loop reads back the (dlat, dlng) pairs that were encoded, in order. |
| DistanceMatrixService.RunningSumsOfDifferences | services/distanceMatrixService.js:18-30 | Accumulating the differences of a point list gives the point list back. |
| DistanceMatrixService.DecodeEncode | services/distanceMatrixService.js:5-33 | Decoding inverts encoding for every list of points within ±180 degrees. |
| DistanceMatrixService.DecodedPointIsPrefixSum | services/distanceMatrixService.js:8-30 | Decoded point k is the sum of the first k+1 decoded (dlat, dlng) pairs. |
| DistanceMatrixService.DecodeLength | services/distanceMatrixService.js:10-31 | Each point consumes at least two characters, so there are at most ⌈|s|/2⌉ points, each emitted for one consumed pair. |
| DistanceMatrixService.GetDetailedRoutePath | services/distanceMatrixService.js:40-44 | With missing coordinates or fewer than two of them, the answer is `{path: coords or [], distance: 0, duration: 0}` without a request. Otherwise it succeeds exactly when OSRM answers a route, and gives OSRM's distance and duration, and as path the decoded geometry, point by point as `[lat / 1E5, lng / 1E5]`. |
| VrpController.Rejection | controllers/vrpController.js:14-22 | The request gets a 400 exactly when the departure is not a 2-number array, the client list is missing or empty, or the vehicle count is not a number ≥ 1, with each check's own message in that order. |
| VrpController.WithTonnage | controllers/vrpController.js:30-36 | Each client keeps its id and location and gets `totalTonnage` = the sum of its product quantities. |
| VrpController.TonnageFacts | controllers/vrpController.js:31 | Non-negative quantities give a non-negative tonnage, and tonnage is additive over product lists. |
| VrpController.AssignRoundRobin | controllers/vrpController.js:40-47 | The `shift`/`push` loop deals the clients exactly as `Buckets` does. |
| VrpController.BucketShape | controllers/vrpController.js:43-47 | Vehicle v gets the clients at positions v, v+k, v+2k, …, in that order. Every such position is placed. |
| VrpController.ClientPlacement | controllers/vrpController.js:43-47 | The client at input position i is on vehicle i mod k, at place i div k of that vehicle's list. |
| VrpController.SlotHoldsOneClient | controllers/vrpController.js:43-47 | Every assigned place holds the client from one input position, and that position maps back to the place. Assignment is a bijection, so each client is assigned exactly once. |
| VrpController.BucketNonEmpty | controllers/vrpController.js:43-56 | A vehicle gets a client exactly when its number is below the client count. |
| VrpController.Locations | controllers/vrpController.js:57-60 | The pushed path points are the vehicle's clients' locations, in order. |
| VrpController.ServedOf | controllers/vrpController.js:75-78 | `clients_served` lists `{id, totalTonnage}` for each of the vehicle's clients, in assignment order. |
| VrpController.BuildPath | controllers/vrpController.js:51-65 | The path loop builds depot, then the clients' locations, then depot. |
| VrpController.EmitRoutes | controllers/vrpController.js:49-81 | The vehicle loop emits exactly the routes of `Emitted`: one per vehicle with clients, skipping the others. |
| VrpController.EmittedPrefix | controllers/vrpController.js:49-81 | When exactly the first m vehicles have clients, the emitted routes are theirs, numbered `vehicle-1` … `vehicle-m`. |
| VrpController.WholeCount | controllers/vrpController.js:40-56 | A count ≥ 1 yields a run only when it is whole and below 2^32 (the largest length `Array.from` accepts), and then the vehicle count is that integer. |
| VrpController.OptimizeRoutes | controllers/vrpController.js:9-93 | The handler answers as `OptimizeRoutesReply`: a 400 from validation, a 500 with the `catch`'s message for a throwing request (no products array, a count that is not a whole number below 2^32, or a client whose `location` is `null` or absent), otherwise 200 with the emitted routes. |
| VrpController.RoundRobinRoutes | controllers/vrpController.js:40-81 | With k vehicles there are min(n, k) routes, and route j is vehicle j+1's route over its dealt clients. |
| VrpController.RouteOfShape | controllers/vrpController.js:51-79 | A reported route has the vehicle's number. Its path runs depot, its clients' locations, depot. It serves those clients with their tonnage. |
| VrpController.AcceptedRequest | controllers/vrpController.js:9-87 | A valid request with a whole count k and clients that all have products is answered with the routes of the round-robin deal when k < 2^32 and every client has a location. It is answered with the `catch`'s 500 when k ≥ 2^32, or when some client's `location` is `null` or absent (the distance at line 4 reads `p2[0]`). |
| VrpController.DealtRoute | controllers/vrpController.js:40-81 | Place x of route j holds the client at input position j + x·k: its location is path point x+1 and it is served entry x. |
| VrpController.EveryClientServedOnce | controllers/vrpController.js:40-81 | Client i is served by route `vehicle-(i mod k + 1)`, at place i div k, with its id and tonnage. |
| VrpController.ServerErrors | controllers/vrpController.js:20-91 | A request that passes validation ends in the `catch`'s 500 exactly when some client has no products array, some client's `location` is `null` or absent, the vehicle count is not whole, or it is 2^32 or more. |
| VrpService.EmptyRoutes | services/vrpService.js:19-33 | The empty-fleet loop produces exactly `count` routes, route i being vehicle `v(i+1)` at the depot. |
| VrpService.DepotRoutes | services/vrpService.js:22-31 | There are `count` depot routes in order. |
| VrpService.AllLocations | services/vrpService.js:49-52 | The location list is the depot followed by each client's location, in input order. |
| VrpService.StopCoordinatesAppend | services/vrpService.js:85-93 | Index translation distributes over concatenation. |
| VrpService.StopTranslation | services/vrpService.js:85-93 | An index outside `[0, |locations|)` is dropped and the others keep their order. An index inside becomes its location. |
| VrpService.StopsAllInRange | services/vrpService.js:85-93 | Indices that are all in range are translated one for one, in order. |
| VrpService.ServedIdsAppend | services/vrpService.js:112-120 | Client-id translation distributes over concatenation. |
| VrpService.ServedTranslation | services/vrpService.js:112-120 | The depot and indices past the clients serve nobody. Index idx in 1 .. |clients| serves `clients[idx-1].id`, in stop order. |
| VrpService.ServedOfClients | services/vrpService.js:112-120 | Client indices all in 1 .. |clients| serve those clients one for one, in order. |
| VrpService.DepotToDepotRoute | services/vrpService.js:85-120 | A solver route `[0, c1, …, cm, 0]` keeps all its stops and serves `clients[c1-1]`, …, `clients[cm-1]`, in order. |
| VrpService.Preferred | services/vrpService.js:126-127 | The reported figure is OSRM's when it is positive and the path has more than one point. Otherwise it is the solver's, or 0. |
| VrpService.Kept | services/vrpService.js:79-129 | A solver route contributes at most one route to the result. |
| VrpService.ProcessedAppend | services/vrpService.js:79-130 | Processing distributes over concatenation of the solver's routes. |
| VrpService.ProcessRoutes | services/vrpService.js:79-130 | The route loop with its `continue` yields exactly `Processed`. |
| VrpService.SolveVrpService | services/vrpService.js:8-134 | The service returns or throws as `SolveVrpServiceResult`. |
| VrpService.NoClientsGivesDepotRoutes | services/vrpService.js:19-33 | Without clients the result is exactly N routes `v1` … `vN`, each with stops and path `[depot]`, zero distance and duration, and no client served. This holds whatever the matrices or solver, and whatever the capacities once they are given (reading their `length` at line 9 throws for `null` or `undefined`), since the check precedes their validation. |
| VrpService.ServiceThrows | services/vrpService.js:12-60 | The service throws on a bad departure, a non-positive count, an invalid client (id, 2-number location, positive demand) and a capacity list of the wrong length, in that order. It succeeds only with complete matrices and a solver answer that has routes. |
| VrpService.RouteWithoutStopsSkipped | services/vrpService.js:80-83 | A route with missing or empty `stops_indices` is skipped. The others are kept in order. |
| VrpService.DistanceFallbacks | services/vrpService.js:96-127 | With at most one stop, or when OSRM fails, the path is the stops and the figures are the solver's (or 0). Otherwise the path is exactly OSRM's decoded geometry, and OSRM's distance and duration are each used when positive and the path has more than one point, the solver's (or 0) otherwise. |
| VrpRoutes.Entries | routes/vrpRoutes.js:93-150 | `Promise.all(map(...))` gives one entry per solver route, in order. |
| VrpRoutes.Itinerary | routes/vrpRoutes.js:161 | The itinerary is the depot, `Client <id>` for each served client, then the depot. |
| VrpRoutes.FindIndex | routes/vrpRoutes.js:171-172 | `findIndex` returns the first location equal to the stop, or -1 exactly when none is. |
| VrpRoutes.Segments | routes/vrpRoutes.js:165-186 | There is one segment per consecutive pair of stops, segment i measuring stops i and i+1. |
| VrpRoutes.MeasureSegment | routes/vrpRoutes.js:167-185 | One iteration looks both stops up and reads the matrix entry between them, in km, or 0 when it is missing. |
| VrpRoutes.RouteDetails | routes/vrpRoutes.js:165-186 | The segment loop builds exactly `Segments`. |
| VrpRoutes.LogFirstRoute | routes/vrpRoutes.js:158-193 | The first route's log is its itinerary, segments and total, as `FirstRouteLog`. |
| VrpRoutes.Optimize | routes/vrpRoutes.js:11-210 | The handler answers as `OptimizeReply`. |
| VrpRoutes.RejectedRequests | routes/vrpRoutes.js:18-53 | The answer is a 400 exactly when the departure is not a 2-number array, the parsed count is NaN or ≤ 0, or some given client lacks an id, a 2-number location or a positive demand. |
| VrpRoutes.NoClientsGivesDepotRoutes | routes/vrpRoutes.js:30-44 | Missing, non-array or empty clients give N routes `v1` … `vN` with stops and path `[depot]`, zeros and no client served. |
| VrpRoutes.MatrixErrors | routes/vrpRoutes.js:63-70 | An empty matrix throws in the slice logging and answers the `catch`'s 500. A missing matrix, or a first row whose length is not the number of locations, answers the route's own 500. |
| VrpRoutes.EntriesKeepEveryRoute | routes/vrpRoutes.js:95-148 | A route with invalid `stops_indices` is kept, with its vehicle id, an empty path and zero figures. Every other route becomes the service's processed route. |
| VrpRoutes.RoutedEntriesAreServiceRoutes | routes/vrpRoutes.js:93-150 | Dropping the kept invalid entries gives exactly the service's routes: the two translations and the distance rule agree. |
| VrpRoutes.HandlerAgreesWithService | routes/vrpRoutes.js:18-200 | When the handler succeeds, the service on the same input returns its processed entries. When the service succeeds on a 2-number departure and the first route has stops, so does the handler. |
| VrpRoutes.DepotToDepotItinerary | routes/vrpRoutes.js:161-186 | For a route with two more stops than clients, segment i goes from itinerary entry i to entry i+1: from the depot first, to the depot last, and to `Client <id>` for each served client in order. |
| VrpRoutes.SolverRouteItinerary | routes/vrpRoutes.js:130-166 | A solver route `[0, c1, …, cm, 0]` is logged as depot, `Client <id of c1>`, …, `Client <id of cm>`, depot, with one segment per leg. |
| VrpRoutes.FindIndexOfDistinct | routes/vrpRoutes.js:171-172 | With pairwise distinct locations, a stop is found at its own index. |
| VrpRoutes.SegmentDistanceOfDistinct | routes/vrpRoutes.js:171-176 | With pairwise distinct locations, the segment between locations a and b measures `distances[a][b] / 1000`. |
| DemandController.ClientIds | controllers/calculetonnage..js:25-27 | Reading `clientData.id` succeeds exactly when no requested client is `null`/`undefined`, giving each client's `id` in order. Otherwise the `TypeError` of the first such client is reported: every client before it has an `id` to read. |
| DemandController.Demands | controllers/calculetonnage..js:55-58 | The demands are those of the kept clients, in order. |
| DemandController.TotalDemand | controllers/calculetonnage..js:55-58 | The `forEach` total is the sum of the kept clients' demands. |
| DemandController.TotalCapacity | controllers/calculetonnage..js:72-75 | The `forEach` total is the sum of the available vehicles' capacities. |
| DemandController.AddStepIds | controllers/calculetonnage..js:157-163 | The inner `forEach` adds to the set exactly the ids of the steps' scan, or fails with its error. |
| DemandController.CollectClientsInSolution | controllers/calculetonnage..js:153-166 | The nested loops collect exactly `ClientsInSolution`, including the `TypeError` of a step or route that is `null`/`undefined`. |
| DemandController.AtLeastZero | controllers/calculetonnage..js:176 | `Math.max(0, x)` is non-negative, at least x, and equal to x or 0. |
| DemandController.UnmetDemand | controllers/calculetonnage..js:168-176 | The loop returns the clamped sum of the demands of the clients whose id is not in the solution. |
| DemandController.OptimizeVrp | controllers/calculetonnage..js:14-203 | The handler answers as `OptimizeVrpReply`. |
| DemandController.RejectedInput | controllers/calculetonnage..js:18-22 | The input 400 is given exactly when the departure is not a 2-array, the clients are not a non-empty array, or `num_vehicles` is not a positive number. |
| DemandController.UnknownClientDropped | controllers/calculetonnage..js:28-48 | A client missing from the database is dropped and the others keep their order. |
| DemandController.NoneFoundIsRejected | controllers/calculetonnage..js:48-52 | No client is kept exactly when none is in the database, and then the answer is 400. |
| DemandController.AllFound | controllers/calculetonnage..js:25-48 | When every client exists, each is kept in order with its database id, coordinates and demand. |
| DemandController.NoVehicleIsRejected | controllers/calculetonnage..js:82-85 | With clients but no available vehicle, the answer is 400. |
| DemandController.StepIdsMembers | controllers/calculetonnage..js:157-163 | A successful step scan collects exactly the truthy `client_id` values of the steps. |
| DemandController.NoRoutesArrayNamesNoClient | controllers/calculetonnage..js:153-166 | A parsed result without a `routes` array names no client, and the solver script's own `optimized_routes` answer is such a result. |
| DemandController.AllServedNoUnmetDemand | controllers/calculetonnage..js:168-176 | When every client is named in the solution, the unmet demand is 0. |
| DemandController.NoneServedAllUnmet | controllers/calculetonnage..js:168-176 | When no client is named, the unmet demand is the whole demand, clamped at 0. |
| DemandController.UnmetAtMostTotal | controllers/calculetonnage..js:168-172 | With non-negative demands, the unmet demand lies between 0 and the total demand. |
| DemandController.SolverVerdict | controllers/calculetonnage..js:179-189 | A string `error` gives 200 with `routes: []` exactly when it contains "No solution found", and an array `error` exactly when it holds that string; otherwise the result is returned unchanged. An absent or falsy `error` also returns the result unchanged, and any other truthy `error` throws (`includes` is not a function) into the format 500. All of this holds whatever the unmet demand. |
| CapacityRoute.ClientTonnages | routes/calculeTonnage.js:40-45 | There is one tonnage per client, computed by the tonnage calculator on its products. |
| CapacityRoute.TotalDemand | routes/calculeTonnage.js:40-45 | The `for` loop's `tonnageTotalDemandeClients` is the sum of the clients' tonnages. |
| CapacityRoute.VehicleCapacities | routes/calculeTonnage.js:89 | There is one capacity per available vehicle, in order, each `Number(tonnageCapacity) \|\| 0`. |
| CapacityRoute.ClientsForVrp | routes/calculeTonnage.js:83-87 | There is one VRP client per request client, in order. |
| CapacityRoute.Optimize | routes/calculeTonnage.js:12-131 | The handler answers as `OptimizeReply`. |
| CapacityRoute.EarlyAnswers | routes/calculeTonnage.js:17-34 | A bad departure gives 400. No clients gives 200 with no routes, zero totals and `sufficientVehicles: true`. A client without a products array or coordinates gives 400. |
| CapacityRoute.NoVehicleIsNotFound | routes/calculeTonnage.js:49-58 | Without available vehicles the answer is 404 with the demand total, capacity 0 and `sufficientVehicles: false`. |
| CapacityRoute.NonNumericCapacityCountsZero | routes/calculeTonnage.js:60-62 | A vehicle whose capacity `Number` turns into NaN adds nothing to the total capacity. |
| CapacityRoute.InsufficientCapacity | routes/calculeTonnage.js:66-109 | When the demand exceeds the capacity, the VRP service is not run and the answer has no routes and `sufficientVehicles: false`. |
| CapacityRoute.SufficientCapacity | routes/calculeTonnage.js:81-118 | When the capacity covers the demand, the answer carries the VRP service's routes with `sufficientVehicles: true`, or the service's error behind the prefix as a 500. |
| CapacityRoute.SufficientFlag | routes/calculeTonnage.js:66-118 | In every 200 answer, `sufficientVehicles` holds exactly when the demand is at most the capacity, and the routes are empty otherwise. |
| CapacityRoute.ClientDemandIsTonnage | routes/calculeTonnage.js:83-87 | The demand sent for a client, summed line by line, equals its tonnage for the whole list. |
| CapacityRoute.ServiceCallPassesFleetChecks | routes/calculeTonnage.js:89-98 | The service gets one vehicle and one capacity per available vehicle, so it never fails on the count or the capacity list. It can fail only on a client, the matrices or the solver. |
| CapacityRoute.WeightlessClientFails | routes/calculeTonnage.js:83-105 | A client whose products weigh nothing has a demand the service rejects. With enough capacity the answer is the 500 with the service's client error. |

## Left out

- OSRM: the HTTP requests of `getDistanceMatrix` and of `getDetailedRoutePath` past its guard, and the URL building. The matrices are a given result, and the detailed path is a given function of the coordinates, returning nothing when the request fails.
- The Python process: spawning and piping, and JSON parsing and serialisation. A run is its exit code, its error output and its parsed answer (or parse error). The solver's answer is a given value. `optimizeVrp` passes its data as an argument (controllers/calculetonnage..js:111) and never writes or closes the script's standard input, while the script waits in `sys.stdin.read()` (python_solver/vrp_solver_script.py:94). As written, that run would never end and the request would never be answered. The model assumes a run that terminates and takes its outcome as given.
- Mongoose queries and schemas. The clients and vehicles the database returns are inputs, and database errors are not modelled.
- `calculateClientDemandKg` (services/DemandCalculator.js is not part of this model): the per-client demand is a given function of the client id.
- DemandController: `v.tonnage` is taken as a supplied real per vehicle. The NaN that the missing schema field would produce is not reproduced.
- `parseInt(num_vehicles, 10)` is taken as already parsed, with `None` for NaN. `Number(v.tonnageCapacity)` is a given `Option<real>`, with `None` for NaN.
- Floating point, in several places:
  - `Math.sqrt` distances and the `/10` durations of `controllers/vrpController.js` (the model keeps paths and tonnage, not distance figures);
  - `toFixed` formatting;
  - the rounding of the `/1E5` scaling: `Decode` keeps points as integers in 1e-5 units, and `ToCoord` divides them exactly;
  - Python float rounding in `math.ceil(n / num_vehicles)`, where the model uses the exact ceiling;
  - infinities and NaN in matrices.
- Console output: the logged totals, the unmet-demand warning above 0.01 and the formatted first route. Their figures are computed but not printed. The debug logging at services/vrpService.js:136-178 is not modelled.
- `Promise.all` in both handlers is a sequential map in route order. Concurrency, and which rejection arrives first, are not modelled.
- Request bodies that are not objects, and clients that are not objects where a field is read from them, except the `null`/`undefined` reads of `optimizeVrp`, which are modelled.
- The string rendering of `Client ${id}` and of the joined itinerary: an itinerary entry keeps the id value itself.
- `toLowerCase` beyond the characters that can lower-case into a unit name: only `A`–`Z` and the Kelvin sign are lowered.
- A solver route that carries fields of its own, such as a `stops` array, merged by `{...route}` in routes/vrpRoutes.js:97. The kept invalid entry is modelled as having no `stops`.
- NearestNeighbor: matrix entries are typed `real`. OSRM's table gives `null` for a pair it cannot route. The comparison `dist < min_distance` at python_solver/vrp_solver_script.py:46 then raises a `TypeError`, which `except IndexError` does not catch, so the script exits 1 (lines 101-103); this is not modelled. The ascending tie-break of `NearestNeighbor.Nearest` relies on CPython iterating a set of small integers in ascending order.
- Arrays with a `length` or `forEach` of their own (objects posing as arrays) are not modelled.
- VrpController.WithTonnage: product quantities are taken as numbers and products as objects. A string quantity would concatenate (`0 + "2"` is `"02"`), an absent one would give NaN, and a `null` product would throw (a 500); none of these is modelled.
- Tonnage.CalculerTonnageClient: weights and quantities are taken as numbers and order lines as objects with a string `productId`. A non-string `productId` never equals `p._id.toString()` at services/calculTonnage.js:26, so such a line is skipped, and a `null` line would throw; neither is modelled.
