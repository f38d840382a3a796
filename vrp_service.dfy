/** services/vrpService.js, `solveVRPService`: validates its arguments,
    answers a request without clients with one empty route per vehicle, and
    otherwise asks the routing service for the matrices, runs the solver and
    turns each solver route's stop indices into coordinates, an OSRM path and
    the ids of the clients served. The routing service, the solver and OSRM's
    detailed paths are inputs of the model. */
module VrpService {
  import opened Common
  import DistanceMatrixService

  type PathInfo = DistanceMatrixService.PathInfo
  type OsrmRoute = DistanceMatrixService.OsrmRoute

  /** A client in the solver's input: `id`, `location` and `demand`. */
  datatype ClientData = ClientData(id: Value, location: Value, demand: Value)

  /** What `getDistanceMatrix` resolved to; a matrix that is absent is `None`. */
  datatype Matrices = Matrices(distances: Option<seq<seq<real>>>, durations: Option<seq<seq<real>>>)

  /** A route of the solver's `optimized_routes`: `stops_indices` is `None` when
      absent or not an array; `distance`/`duration` are `None` when absent. */
  datatype RawRoute = RawRoute(vehicleId: Value, stopsIndices: Option<seq<int>>, distance: Option<real>, duration: Option<real>)

  /** A route of the answer. */
  datatype ServiceRoute = ServiceRoute(vehicleId: Value, stops: seq<Coord>, path: seq<Coord>,
                                       distance: real, duration: real, served: seq<Value>)

  /** The TypeError of reading `length` of an absent array. The model's `Nullish`
      does not tell `null` from `undefined`, so for a `null` argument the engine's
      text would say "null" where this says "undefined". The callers in this model
      (`CapacityRoute`, `VrpRoutes`) always pass both arrays. */
  const LengthError := "Cannot read properties of undefined (reading 'length')"
  const SliceError := "Cannot read properties of undefined (reading 'slice')"
  const DepartureError := "Invalid departure location: Must be an array of two numbers [lat, lng]."
  const VehiclesError := "Number of vehicles must be a positive integer."
  const ClientError := "Invalid client data: Each client must have id, location [lat, lng] (numbers), and a positive demand."
  const CapacityError := "Vehicle capacities array must be provided and match the number of vehicles."
  const RoutingError := "Failed to get complete routing data from OSRM service. Check OSRM server status or input coordinates."
  const SolverError := "VRP solver could not find optimized routes or returned an unexpected format."

  // ----- Validation -----

  /** The test of lines 36-38: a truthy id, a [lat, lng] pair of numbers, a positive numeric demand. */
  predicate ValidClient(c: ClientData) {
    Truthy(c.id) && IsNumberPair(c.location) && c.demand.Num? && c.demand.n > 0.0
  }

  predicate AllValid(cs: seq<ClientData>) {
    forall i :: 0 <= i < |cs| ==> ValidClient(cs[i])
  }

  /** A parsed vehicle count the service accepts: `parseInt` gave a number, and it is positive. */
  predicate PositiveCount(parsed: Option<int>) {
    parsed.Some? && parsed.value > 0
  }

  // ----- Empty fleet default (lines 19-33) -----

  /** `v${i + 1}`. */
  function VehicleId(number: nat): Value {
    Str("v" + Decimal(number))
  }

  /** The route of vehicle `number` that stays at the depot. */
  function DepotRoute(departure: Value, number: nat): ServiceRoute
    requires IsPair(departure)
  {
    ServiceRoute(VehicleId(number), [PairCoord(departure)], [PairCoord(departure)], 0.0, 0.0, [])
  }

  /** The loop of lines 22-31: one depot route per vehicle, `v1` … `vN`. */
  method EmptyRoutes(departure: Value, count: nat) returns (routes: seq<ServiceRoute>)
    requires IsPair(departure)
    ensures |routes| == count
    ensures forall i :: 0 <= i < count ==> routes[i] == DepotRoute(departure, i + 1)
  {
    routes := [];
    for i := 0 to count
      invariant |routes| == i
      invariant forall j :: 0 <= j < i ==> routes[j] == DepotRoute(departure, j + 1)
    {
      routes := routes + [DepotRoute(departure, i + 1)];
    }
  }

  /** What the loop of lines 22-31 returns. */
  function DepotRoutes(departure: Value, count: nat): (routes: seq<ServiceRoute>)
    requires IsPair(departure)
    ensures |routes| == count
    ensures forall i :: 0 <= i < count ==> routes[i] == DepotRoute(departure, i + 1)
  {
    seq(count, i requires 0 <= i < count => DepotRoute(departure, i + 1))
  }

  // ----- Locations and index translation -----

  /** `allLocations` (lines 49-52): the depot, then each client's location. */
  function AllLocations(departure: Value, cs: seq<ClientData>): (locs: seq<Coord>)
    requires IsPair(departure) && AllValid(cs)
    ensures |locs| == |cs| + 1 && locs[0] == PairCoord(departure)
    ensures forall i :: 0 <= i < |cs| ==> locs[i + 1] == PairCoord(cs[i].location)
  {
    [PairCoord(departure)] + seq(|cs|, i requires 0 <= i < |cs| => PairCoord(cs[i].location))
  }

  /** `stops_indices.map(index => in range ? allLocations[index] : null).filter(coord => coord !== null)`. */
  function StopCoordinates(indices: seq<int>, locs: seq<Coord>): seq<Coord>
    decreases |indices|
  {
    if indices == [] then []
    else (if 0 <= indices[0] < |locs| then [locs[indices[0]]] else []) + StopCoordinates(indices[1..], locs)
  }

  /** `stops_indices.filter(idx => idx > 0).map(idx => clients[idx - 1].id or null).filter(id => id !== null)`. */
  function ServedIds(indices: seq<int>, cs: seq<ClientData>): seq<Value>
    decreases |indices|
  {
    if indices == [] then []
    else (if 0 < indices[0] && indices[0] - 1 < |cs| then [cs[indices[0] - 1].id] else []) + ServedIds(indices[1..], cs)
  }

  lemma {:induction false} StopCoordinatesAppend(a: seq<int>, b: seq<int>, locs: seq<Coord>)
    ensures StopCoordinates(a + b, locs) == StopCoordinates(a, locs) + StopCoordinates(b, locs)
    decreases |a|
  {
    if a == [] {
      assert a + b == b;
    } else {
      assert (a + b)[1..] == a[1..] + b;
      StopCoordinatesAppend(a[1..], b, locs);
    }
  }

  lemma {:induction false} ServedIdsAppend(a: seq<int>, b: seq<int>, cs: seq<ClientData>)
    ensures ServedIds(a + b, cs) == ServedIds(a, cs) + ServedIds(b, cs)
    decreases |a|
  {
    if a == [] {
      assert a + b == b;
    } else {
      assert (a + b)[1..] == a[1..] + b;
      ServedIdsAppend(a[1..], b, cs);
    }
  }

  lemma StopSingle(i: int, locs: seq<Coord>)
    ensures StopCoordinates([i], locs) == if 0 <= i < |locs| then [locs[i]] else []
  {
    assert [i][1..] == [];
  }

  lemma ServedSingle(idx: int, cs: seq<ClientData>)
    ensures ServedIds([idx], cs) == if 0 < idx && idx - 1 < |cs| then [cs[idx - 1].id] else []
  {
    assert [idx][1..] == [];
  }

  /** An index outside the locations is dropped and the others keep their order;
      an index inside is translated to its location. */
  lemma StopTranslation(a: seq<int>, i: int, b: seq<int>, locs: seq<Coord>)
    ensures !(0 <= i < |locs|) ==> StopCoordinates(a + [i] + b, locs) == StopCoordinates(a + b, locs)
    ensures 0 <= i < |locs| ==>
      StopCoordinates(a + [i] + b, locs) == StopCoordinates(a, locs) + [locs[i]] + StopCoordinates(b, locs)
  {
    StopCoordinatesAppend(a + [i], b, locs);
    StopCoordinatesAppend(a, [i], locs);
    StopCoordinatesAppend(a, b, locs);
    StopSingle(i, locs);
  }

  /** The depot and indices past the clients serve nobody; index idx in 1 .. |cs| serves client idx - 1. */
  lemma ServedTranslation(a: seq<int>, idx: int, b: seq<int>, cs: seq<ClientData>)
    ensures !(0 < idx <= |cs|) ==> ServedIds(a + [idx] + b, cs) == ServedIds(a + b, cs)
    ensures 0 < idx <= |cs| ==>
      ServedIds(a + [idx] + b, cs) == ServedIds(a, cs) + [cs[idx - 1].id] + ServedIds(b, cs)
  {
    ServedIdsAppend(a + [idx], b, cs);
    ServedIdsAppend(a, [idx], cs);
    ServedSingle(idx, cs);
    if !(0 < idx <= |cs|) {
      ServedIdsAppend(a, b, cs);
      assert ServedIds(a + [idx], cs) == ServedIds(a, cs);
    }
  }

  /** Indices that are all in range are translated one for one, in order. */
  lemma {:induction false} StopsAllInRange(indices: seq<int>, locs: seq<Coord>)
    requires forall j :: 0 <= j < |indices| ==> 0 <= indices[j] < |locs|
    ensures |StopCoordinates(indices, locs)| == |indices|
    ensures forall j :: 0 <= j < |indices| ==> StopCoordinates(indices, locs)[j] == locs[indices[j]]
    decreases |indices|
  {
    if indices != [] {
      var rest := indices[1..];
      StopsAllInRange(rest, locs);
      assert StopCoordinates(indices, locs) == [locs[indices[0]]] + StopCoordinates(rest, locs);
      assert forall j :: 1 <= j < |indices| ==> indices[j] == rest[j - 1];
    }
  }

  /** A solver route `[0, c1, …, cm, 0]` over the clients keeps all its stops and
      serves the clients c1 - 1, …, cm - 1 of the list, in that order. */
  lemma DepotToDepotRoute(indices: seq<int>, cs: seq<ClientData>, locs: seq<Coord>)
    requires |locs| == |cs| + 1 && |indices| >= 2 && indices[0] == 0 && indices[|indices| - 1] == 0
    requires forall j :: 0 < j < |indices| - 1 ==> 1 <= indices[j] <= |cs|
    ensures |StopCoordinates(indices, locs)| == |indices|
    ensures |ServedIds(indices, cs)| == |indices| - 2
    ensures forall j :: 0 <= j < |indices| - 2 ==> ServedIds(indices, cs)[j] == cs[indices[j + 1] - 1].id
  {
    StopsAllInRange(indices, locs);
    var middle := indices[1..|indices| - 1];
    assert indices == [0] + middle + [0];
    ServedIdsAppend([0] + middle, [0], cs);
    ServedIdsAppend([0], middle, cs);
    ServedSingle(0, cs);
    ServedOfClients(middle, cs);
    assert forall j :: 0 <= j < |middle| ==> middle[j] == indices[j + 1];
  }

  /** Client indices all in 1 .. |cs| serve those clients one for one. */
  lemma {:induction false} ServedOfClients(indices: seq<int>, cs: seq<ClientData>)
    requires forall j :: 0 <= j < |indices| ==> 1 <= indices[j] <= |cs|
    ensures |ServedIds(indices, cs)| == |indices|
    ensures forall j :: 0 <= j < |indices| ==> ServedIds(indices, cs)[j] == cs[indices[j] - 1].id
    decreases |indices|
  {
    if indices != [] {
      var rest := indices[1..];
      ServedOfClients(rest, cs);
      assert ServedIds(indices, cs) == [cs[indices[0] - 1].id] + ServedIds(rest, cs);
      assert forall j :: 1 <= j < |indices| ==> indices[j] == rest[j - 1];
    }
  }

  // ----- One solver route (lines 79-129) -----

  /** The test of line 80: `stops_indices` is a non-empty array. */
  predicate HasStops(route: RawRoute) {
    route.stopsIndices.Some? && |route.stopsIndices.value| >= 1
  }

  /** `detailedPathInfo` (lines 96-110): OSRM's path for two stops or more, or on
      failure the stops themselves with the solver's figures; the single stop
      with zeros; nothing for no stop. */
  function DetailedPath(coords: seq<Coord>, route: RawRoute, osrm: seq<Coord> -> Option<OsrmRoute>): PathInfo {
    if |coords| > 1 then
      match DistanceMatrixService.GetDetailedRoutePath(Some(coords), osrm)
      case Ok(info) => info
      case Err(_) => DistanceMatrixService.PathInfo(coords, OrZero(route.distance), OrZero(route.duration))
    else if |coords| == 1 then DistanceMatrixService.PathInfo(coords, 0.0, 0.0)
    else DistanceMatrixService.PathInfo([], 0.0, 0.0)
  }

  /** The choice of lines 126-127: OSRM's figure when positive and the path has
      more than one point, else the solver's figure, else 0. */
  function Preferred(osrmValue: real, path: seq<Coord>, solverValue: Option<real>): (r: real)
    ensures r == osrmValue <== osrmValue > 0.0 && |path| > 1
    ensures !(osrmValue > 0.0 && |path| > 1) ==> r == OrZero(solverValue)
  {
    if osrmValue > 0.0 && |path| > 1 then osrmValue else OrZero(solverValue)
  }

  /** The object pushed at lines 122-129 for a route with stops. */
  function ProcessRoute(route: RawRoute, locs: seq<Coord>, cs: seq<ClientData>, osrm: seq<Coord> -> Option<OsrmRoute>): ServiceRoute
    requires HasStops(route)
  {
    var indices := route.stopsIndices.value;
    var coords := StopCoordinates(indices, locs);
    var info := DetailedPath(coords, route, osrm);
    ServiceRoute(route.vehicleId, coords, info.path,
                 Preferred(info.distance, info.path, route.distance),
                 Preferred(info.duration, info.path, route.duration),
                 ServedIds(indices, cs))
  }

  /** What one solver route contributes: its object, or nothing when it has no stops. */
  function Kept(route: RawRoute, locs: seq<Coord>, cs: seq<ClientData>, osrm: seq<Coord> -> Option<OsrmRoute>): (r: seq<ServiceRoute>)
    ensures |r| <= 1
  {
    if HasStops(route) then [ProcessRoute(route, locs, cs, osrm)] else []
  }

  /** `optimized_routes_with_paths` for the solver routes `raw`: each route with stops, in order. */
  function Processed(raw: seq<RawRoute>, locs: seq<Coord>, cs: seq<ClientData>, osrm: seq<Coord> -> Option<OsrmRoute>): seq<ServiceRoute>
  {
    Collect(raw, route => Kept(route, locs, cs, osrm))
  }

  lemma ProcessedAppend(a: seq<RawRoute>, b: seq<RawRoute>, locs: seq<Coord>, cs: seq<ClientData>,
                        osrm: seq<Coord> -> Option<OsrmRoute>)
    ensures Processed(a + b, locs, cs, osrm) == Processed(a, locs, cs, osrm) + Processed(b, locs, cs, osrm)
  {
    CollectAppend(a, b, route => Kept(route, locs, cs, osrm));
  }

  /** The loop of lines 79-130, with its `continue` for a route without stops. */
  method ProcessRoutes(raw: seq<RawRoute>, locs: seq<Coord>, cs: seq<ClientData>, osrm: seq<Coord> -> Option<OsrmRoute>)
    returns (routes: seq<ServiceRoute>)
    ensures routes == Processed(raw, locs, cs, osrm)
  {
    routes := [];
    for i := 0 to |raw|
      invariant routes == Processed(raw[..i], locs, cs, osrm)
    {
      var route := raw[i];
      assert raw[..i + 1][..i] == raw[..i];
      if !HasStops(route) {
        continue;
      }
      var indices := route.stopsIndices.value;
      var coords := StopCoordinates(indices, locs);
      var info := DetailedPath(coords, route, osrm);
      var served := ServedIds(indices, cs);
      routes := routes + [ServiceRoute(route.vehicleId, coords, info.path,
                                       Preferred(info.distance, info.path, route.distance),
                                       Preferred(info.duration, info.path, route.duration),
                                       served)];
    }
    assert raw[..|raw|] == raw;
  }

  // ----- The whole service -----

  /** The matrices pass the logging of lines 55-56 (a present matrix with no
      first row throws there) and the completeness test of line 58. */
  function MatrixFailure(ms: Matrices, locations: nat): Option<string> {
    if ms.distances.Some? && ms.distances.value == [] then Some(SliceError)
    else if ms.durations.Some? && ms.durations.value == [] then Some(SliceError)
    else if ms.distances.None? || ms.durations.None? || |ms.distances.value[0]| != locations then Some(RoutingError)
    else None
  }

  /** What `solveVRPService` returns or throws. `matrices` is what
      `getDistanceMatrix` resolved to (or the error it threw); `solverResult`
      what `solveVRP` resolved to: `None` when it has no `optimized_routes` array. */
  function SolveVrpServiceResult(departure: Value, clients: Field<seq<ClientData>>, numVehicles: Option<int>,
                                 capacities: Field<seq<real>>, matrices: Result<Matrices>,
                                 solverResult: Result<Option<seq<RawRoute>>>,
                                 osrm: seq<Coord> -> Option<OsrmRoute>): Result<seq<ServiceRoute>>
  {
    if clients.Nullish? || capacities.Nullish? then Err(LengthError)
    else if !IsPair(departure) then Err(DepartureError)
    else if !PositiveCount(numVehicles) then Err(VehiclesError)
    else if !clients.Given? || clients.value == [] then Ok(DepotRoutes(departure, numVehicles.value))
    else if !AllValid(clients.value) then Err(ClientError)
    else if !capacities.Given? || |capacities.value| != numVehicles.value then Err(CapacityError)
    else
      var locs := AllLocations(departure, clients.value);
      match matrices
      case Err(e) => Err(e)
      case Ok(ms) =>
        match MatrixFailure(ms, |locs|)
        case Some(e) => Err(e)
        case None =>
          match solverResult
          case Err(e) => Err(e)
          case Ok(None) => Err(SolverError)
          case Ok(Some(raw)) => Ok(Processed(raw, locs, clients.value, osrm))
  }

  /** `solveVRPService`. */
  method SolveVrpService(departure: Value, clients: Field<seq<ClientData>>, numVehicles: Option<int>,
                         capacities: Field<seq<real>>, matrices: Result<Matrices>,
                         solverResult: Result<Option<seq<RawRoute>>>,
                         osrm: seq<Coord> -> Option<OsrmRoute>) returns (r: Result<seq<ServiceRoute>>)
    ensures r == SolveVrpServiceResult(departure, clients, numVehicles, capacities, matrices, solverResult, osrm)
  {
    if clients.Nullish? || capacities.Nullish? {
      return Err(LengthError);
    }
    if !IsPair(departure) {
      return Err(DepartureError);
    }
    if !PositiveCount(numVehicles) {
      return Err(VehiclesError);
    }
    var parsedNumVehicles := numVehicles.value;
    if !clients.Given? || clients.value == [] {
      var emptyRoutes := EmptyRoutes(departure, parsedNumVehicles);
      assert emptyRoutes == DepotRoutes(departure, parsedNumVehicles);
      return Ok(emptyRoutes);
    }
    var cs := clients.value;
    if !AllValid(cs) {
      return Err(ClientError);
    }
    if !capacities.Given? || |capacities.value| != parsedNumVehicles {
      return Err(CapacityError);
    }
    var allLocations := AllLocations(departure, cs);
    if matrices.Err? {
      return Err(matrices.message);
    }
    var failure := MatrixFailure(matrices.value, |allLocations|);
    if failure.Some? {
      return Err(failure.value);
    }
    if solverResult.Err? {
      return Err(solverResult.message);
    }
    if solverResult.value.None? {
      return Err(SolverError);
    }
    var routes := ProcessRoutes(solverResult.value.value, allLocations, cs, osrm);
    return Ok(routes);
  }

  // ----- Properties -----

  /** Without clients the fleet gets exactly N depot routes `v1` … `vN`, whatever the
      clients' or capacities' validity, the matrices or the solver. */
  lemma NoClientsGivesDepotRoutes(departure: Value, clients: Field<seq<ClientData>>, count: nat,
                                  capacities: Field<seq<real>>, matrices: Result<Matrices>,
                                  solverResult: Result<Option<seq<RawRoute>>>,
                                  osrm: seq<Coord> -> Option<OsrmRoute>)
    requires IsPair(departure) && count > 0
    requires clients == Mistyped || clients == Given([])
    requires !capacities.Nullish?
    ensures var r := SolveVrpServiceResult(departure, clients, Some(count), capacities, matrices, solverResult, osrm);
      r.Ok? && |r.value| == count &&
      forall i :: 0 <= i < count ==>
        r.value[i].vehicleId == Str("v" + Decimal(i + 1)) &&
        r.value[i].stops == [PairCoord(departure)] && r.value[i].path == r.value[i].stops &&
        Arr([r.value[i].stops[0].lat, r.value[i].stops[0].lng]) == departure &&
        r.value[i].distance == 0.0 && r.value[i].duration == 0.0 && r.value[i].served == []
  {
  }

  /** The service throws on a bad departure, a non-positive or unparsable count,
      an invalid client, a capacity list of the wrong length, incomplete
      matrices and a solver answer without routes. */
  lemma ServiceThrows(departure: Value, cs: seq<ClientData>, numVehicles: Option<int>,
                      capacities: Field<seq<real>>, matrices: Result<Matrices>,
                      solverResult: Result<Option<seq<RawRoute>>>,
                      osrm: seq<Coord> -> Option<OsrmRoute>)
    requires !capacities.Nullish?
    ensures var r := SolveVrpServiceResult(departure, Given(cs), numVehicles, capacities, matrices, solverResult, osrm);
      (!IsPair(departure) ==> r == Err(DepartureError)) &&
      (IsPair(departure) && !PositiveCount(numVehicles) ==> r == Err(VehiclesError)) &&
      (IsPair(departure) && PositiveCount(numVehicles) && cs != [] && !AllValid(cs) ==> r == Err(ClientError)) &&
      ((IsPair(departure) && PositiveCount(numVehicles) && cs != [] && AllValid(cs) &&
        !(capacities.Given? && |capacities.value| == numVehicles.value)) ==> r == Err(CapacityError)) &&
      (r.Ok? ==> IsPair(departure) && PositiveCount(numVehicles) && AllValid(cs) &&
                 (cs != [] ==> capacities.Given? && |capacities.value| == numVehicles.value &&
                               matrices.Ok? && MatrixFailure(matrices.value, |cs| + 1).None? &&
                               solverResult == Ok(Some(solverResult.value.value))))
  {
  }

  /** A route without stops is skipped entirely; the others are kept in order. */
  lemma RouteWithoutStopsSkipped(a: seq<RawRoute>, route: RawRoute, b: seq<RawRoute>, locs: seq<Coord>,
                                 cs: seq<ClientData>, osrm: seq<Coord> -> Option<OsrmRoute>)
    ensures !HasStops(route) ==> Processed(a + [route] + b, locs, cs, osrm) == Processed(a + b, locs, cs, osrm)
    ensures HasStops(route) ==>
      Processed(a + [route] + b, locs, cs, osrm) ==
      Processed(a, locs, cs, osrm) + [ProcessRoute(route, locs, cs, osrm)] + Processed(b, locs, cs, osrm)
  {
    ProcessedAppend(a + [route], b, locs, cs, osrm);
    ProcessedAppend(a, [route], locs, cs, osrm);
    ProcessedAppend(a, b, locs, cs, osrm);
  }

  /** When OSRM's path cannot be had, or the route has a single stop, the
      reported figures are the solver's; with two stops or more the path is
      OSRM's decoded geometry or else the stops. */
  lemma DistanceFallbacks(route: RawRoute, locs: seq<Coord>, cs: seq<ClientData>, osrm: seq<Coord> -> Option<OsrmRoute>)
    requires HasStops(route)
    ensures var coords := StopCoordinates(route.stopsIndices.value, locs);
      var r := ProcessRoute(route, locs, cs, osrm);
      (|coords| <= 1 ==> r.path == coords && r.distance == OrZero(route.distance) && r.duration == OrZero(route.duration)) &&
      (|coords| > 1 && osrm(coords).None? ==>
         r.path == coords && r.distance == OrZero(route.distance) && r.duration == OrZero(route.duration)) &&
      (|coords| > 1 && osrm(coords).Some? ==>
         r.path == DistanceMatrixService.ToCoords(DistanceMatrixService.Decode(osrm(coords).value.geometry)) &&
         r.distance == (if osrm(coords).value.distance > 0.0 && |r.path| > 1 then osrm(coords).value.distance
                        else OrZero(route.distance)) &&
         r.duration == (if osrm(coords).value.duration > 0.0 && |r.path| > 1 then osrm(coords).value.duration
                        else OrZero(route.duration)))
  {
  }
}
