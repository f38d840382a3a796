/** routes/vrpRoutes.js, the `POST /optimize` handler: the same pipeline as
    `solveVRPService` answered over HTTP. It validates the body (400), answers a
    request without clients with one depot route per vehicle, checks the
    matrices (500), keeps a solver route without stops as an entry with an
    empty path, and logs an itinerary with per-segment distances for the first
    route. The routing service, the solver and OSRM are inputs, as for the
    service. */
module VrpRoutes {
  import opened Common
  import DistanceMatrixService
  import VrpService

  type ClientData = VrpService.ClientData
  type Matrices = VrpService.Matrices
  type RawRoute = VrpService.RawRoute
  type ServiceRoute = VrpService.ServiceRoute
  type OsrmRoute = DistanceMatrixService.OsrmRoute

  /** An entry of `optimized_routes`: a processed route, or for a solver route
      without stops `{...route, path: [], distance: 0, duration: 0}`. */
  datatype OutRoute =
    | Routed(route: ServiceRoute)
    | Unrouted(vehicleId: Value, stopsIndices: Option<seq<int>>, path: seq<Coord>, distance: real, duration: real)

  /** The answer: status 400 with a message, status 500 with a message, status
      500 from the `catch` of lines 202-209 (message `InternalMessage`, `error`
      the thrown message), or status 200 with a message and the routes. */
  datatype Reply =
    | BadRequest(message: string)
    | ServerError(message: string)
    | InternalError(error: string)
    | Success(message: string, routes: seq<OutRoute>)

  const InternalMessage := "Internal server error during route optimization."
  const NoClientsMessage := "Optimization successful (no clients provided)"
  const SuccessMessage := "Optimization successful"
  /** What reading `firstRoute.stops.length` throws when `stops` is absent. */
  const StopsLengthError := "Cannot read properties of undefined (reading 'length')"

  // ----- Validation (lines 18-28, 46-53) -----

  /** The departure test of lines 18-19, stricter than the service's: both entries must be numbers. */
  predicate ValidDeparture(departure: Value) {
    Truthy(departure) && IsNumberPair(departure)
  }

  /** Lines 30: `!clients || !Array.isArray(clients) || clients.length === 0`. */
  predicate NoClients(clients: Field<seq<ClientData>>) {
    !clients.Given? || clients.value == []
  }

  // ----- Solver routes (lines 93-150) -----

  /** What the `map` callback of lines 94-149 returns for one solver route. A
      route with stops is processed exactly as the service processes it. */
  function Entry(route: RawRoute, locs: seq<Coord>, cs: seq<ClientData>, osrm: seq<Coord> -> Option<OsrmRoute>): OutRoute {
    if VrpService.HasStops(route) then Routed(VrpService.ProcessRoute(route, locs, cs, osrm))
    else Unrouted(route.vehicleId, route.stopsIndices, [], 0.0, 0.0)
  }

  /** `Promise.all(optimized_routes.map(...))`, in the order of the solver's routes. */
  function Entries(raw: seq<RawRoute>, locs: seq<Coord>, cs: seq<ClientData>, osrm: seq<Coord> -> Option<OsrmRoute>): (es: seq<OutRoute>)
    ensures |es| == |raw|
    ensures forall i :: 0 <= i < |raw| ==> es[i] == Entry(raw[i], locs, cs, osrm)
  {
    seq(|raw|, i requires 0 <= i < |raw| => Entry(raw[i], locs, cs, osrm))
  }

  /** The processed routes among the entries, in order. */
  function RoutedOf(es: seq<OutRoute>): seq<ServiceRoute> {
    Collect(es, (e: OutRoute) => if e.Routed? then [e.route] else [])
  }

  // ----- The log of the first route (lines 158-186) -----

  /** An entry of `itineraryStops`: `'Dépôt'` or `` `Client ${id}` ``. */
  datatype ItineraryStop = DepotStop | ClientStop(id: Value)

  /** A `routeDetails` entry; a label past the end of `itineraryStops` is `undefined` (`None`). */
  datatype Segment = Segment(from: Option<ItineraryStop>, to: Option<ItineraryStop>, distanceKm: real)

  /** `formattedFirstRoute`, with the distances as numbers rather than `toFixed(2)` strings. */
  datatype RouteLog = RouteLog(vehicleId: Value, totalDistanceKm: real, itinerary: seq<ItineraryStop>, details: seq<Segment>)

  /** `itineraryStops` (line 161): the depot, each served client, the depot. */
  function Itinerary(served: seq<Value>): (stops: seq<ItineraryStop>)
    ensures |stops| == |served| + 2
    ensures stops[0] == DepotStop && stops[|stops| - 1] == DepotStop
    ensures forall i :: 0 <= i < |served| ==> stops[i + 1] == ClientStop(served[i])
  {
    [DepotStop] + seq(|served|, i requires 0 <= i < |served| => ClientStop(served[i])) + [DepotStop]
  }

  /** `itineraryStops[i]`, `undefined` past the end. */
  function Label(itinerary: seq<ItineraryStop>, i: nat): Option<ItineraryStop> {
    if i < |itinerary| then Some(itinerary[i]) else None
  }

  /** `allLocations.findIndex(loc => loc.lat === c[0] && loc.lng === c[1])`. */
  function FindIndex(locs: seq<Coord>, c: Coord): (k: int)
    ensures -1 <= k < |locs|
    ensures k == -1 <==> c !in locs
    ensures k >= 0 ==> locs[k] == c && forall j :: 0 <= j < k ==> locs[j] != c
    decreases |locs|
  {
    if locs == [] then -1
    else if locs[0] == c then 0
    else
      var k := FindIndex(locs[1..], c);
      assert forall j :: 1 <= j < |locs| ==> locs[j] == locs[1..][j - 1];
      if k == -1 then -1 else k + 1
  }

  /** `segmentDistance` (lines 171-179): the matrix entry between the two stops'
      first matching locations, in kilometres, or 0 when it cannot be found. */
  function SegmentDistance(locs: seq<Coord>, distances: seq<seq<real>>, from: Coord, to: Coord): real {
    var fromIndex := FindIndex(locs, from);
    var toIndex := FindIndex(locs, to);
    if fromIndex != -1 && toIndex != -1 && fromIndex < |distances| && toIndex < |distances[fromIndex]|
    then distances[fromIndex][toIndex] / 1000.0
    else 0.0
  }

  /** The segment the loop of lines 166-186 pushes for stops i and i + 1. */
  function SegmentAt(stops: seq<Coord>, itinerary: seq<ItineraryStop>, locs: seq<Coord>, distances: seq<seq<real>>, i: nat): Segment
    requires i + 1 < |stops|
  {
    Segment(Label(itinerary, i), Label(itinerary, i + 1), SegmentDistance(locs, distances, stops[i], stops[i + 1]))
  }

  /** The number of iterations of `for (i = 0; i < stops.length - 1; i++)`. */
  function SegmentCount(stops: seq<Coord>): nat {
    if |stops| == 0 then 0 else |stops| - 1
  }

  /** `routeDetails`: one segment per consecutive pair of stops. */
  function Segments(stops: seq<Coord>, itinerary: seq<ItineraryStop>, locs: seq<Coord>, distances: seq<seq<real>>): (ds: seq<Segment>)
    ensures |ds| == SegmentCount(stops)
    ensures forall i :: 0 <= i < |ds| ==> ds[i] == SegmentAt(stops, itinerary, locs, distances, i)
  {
    seq(SegmentCount(stops), i requires 0 <= i < SegmentCount(stops) => SegmentAt(stops, itinerary, locs, distances, i))
  }

  /** What lines 159-193 compute for the first route. */
  function FirstRouteLog(route: ServiceRoute, locs: seq<Coord>, distances: seq<seq<real>>): RouteLog {
    var itinerary := Itinerary(route.served);
    RouteLog(route.vehicleId, route.distance / 1000.0, itinerary, Segments(route.stops, itinerary, locs, distances))
  }

  /** One iteration of the loop of lines 166-186: looks both stops up in the
      locations and reads the matrix entry between them. */
  method MeasureSegment(stops: seq<Coord>, itinerary: seq<ItineraryStop>, locs: seq<Coord>, distances: seq<seq<real>>, i: nat)
    returns (segment: Segment)
    requires i + 1 < |stops|
    ensures segment == SegmentAt(stops, itinerary, locs, distances, i)
  {
    var fromCoord := stops[i];
    var toCoord := stops[i + 1];
    var fromIndex := FindIndex(locs, fromCoord);
    var toIndex := FindIndex(locs, toCoord);
    var segmentDistance := 0.0;
    if fromIndex != -1 && toIndex != -1 && fromIndex < |distances| && toIndex < |distances[fromIndex]| {
      segmentDistance := distances[fromIndex][toIndex] / 1000.0;
    }
    segment := Segment(Label(itinerary, i), Label(itinerary, i + 1), segmentDistance);
  }

  /** The loop of lines 165-186: one segment per consecutive pair of stops. */
  method RouteDetails(stops: seq<Coord>, itinerary: seq<ItineraryStop>, locs: seq<Coord>, distances: seq<seq<real>>)
    returns (routeDetails: seq<Segment>)
    ensures routeDetails == Segments(stops, itinerary, locs, distances)
  {
    ghost var segments := Segments(stops, itinerary, locs, distances);
    routeDetails := [];
    var i := 0;
    while i + 1 < |stops|
      invariant i <= |segments|
      invariant routeDetails == segments[..i]
    {
      var segment := MeasureSegment(stops, itinerary, locs, distances, i);
      assert segments[..i + 1] == segments[..i] + [segment];
      routeDetails := routeDetails + [segment];
      i := i + 1;
    }
    assert segments[..i] == segments;
  }

  /** Lines 159-193: the itinerary, the segments and the total of the first route. */
  method LogFirstRoute(route: ServiceRoute, locs: seq<Coord>, distances: seq<seq<real>>) returns (log: RouteLog)
    ensures log == FirstRouteLog(route, locs, distances)
  {
    var itineraryStops := Itinerary(route.served);
    var routeDetails := RouteDetails(route.stops, itineraryStops, locs, distances);
    log := RouteLog(route.vehicleId, route.distance / 1000.0, itineraryStops, routeDetails);
  }

  // ----- The handler -----

  /** What the handler answers. `numVehicles` is `parseInt(num_vehicles, 10)`
      (`None` for NaN); `matrices` is what `getDistanceMatrix` resolved to (or
      the error it threw); `solverResult` what `solveVRP` resolved to, `None`
      when it has no `optimized_routes` array. */
  function OptimizeReply(departure: Value, clients: Field<seq<ClientData>>, numVehicles: Option<int>,
                         matrices: Result<Matrices>, solverResult: Result<Option<seq<RawRoute>>>,
                         osrm: seq<Coord> -> Option<OsrmRoute>): Reply
  {
    if !ValidDeparture(departure) then BadRequest(VrpService.DepartureError)
    else if !VrpService.PositiveCount(numVehicles) then BadRequest(VrpService.VehiclesError)
    else if NoClients(clients) then
      Success(NoClientsMessage, seq(numVehicles.value, i requires 0 <= i < numVehicles.value =>
                                      Routed(VrpService.DepotRoute(departure, i + 1))))
    else if !VrpService.AllValid(clients.value) then BadRequest(VrpService.ClientError)
    else
      var locs := VrpService.AllLocations(departure, clients.value);
      match matrices
      case Err(e) => InternalError(e)
      case Ok(ms) =>
        match VrpService.MatrixFailure(ms, |locs|)
        case Some(e) => if e == VrpService.SliceError then InternalError(e) else ServerError(e)
        case None =>
          match solverResult
          case Err(e) => InternalError(e)
          case Ok(None) => ServerError(VrpService.SolverError)
          case Ok(Some(raw)) =>
            var routes := Entries(raw, locs, clients.value, osrm);
            if routes != [] && routes[0].Unrouted? then InternalError(StopsLengthError)
            else Success(SuccessMessage, routes)
  }

  /** The handler of lines 11-210. */
  method Optimize(departure: Value, clients: Field<seq<ClientData>>, numVehicles: Option<int>,
                  matrices: Result<Matrices>, solverResult: Result<Option<seq<RawRoute>>>,
                  osrm: seq<Coord> -> Option<OsrmRoute>) returns (reply: Reply)
    ensures reply == OptimizeReply(departure, clients, numVehicles, matrices, solverResult, osrm)
  {
    if !ValidDeparture(departure) {
      return BadRequest(VrpService.DepartureError);
    }
    if !VrpService.PositiveCount(numVehicles) {
      return BadRequest(VrpService.VehiclesError);
    }
    var parsedNumVehicles := numVehicles.value;
    if NoClients(clients) {
      var emptyRoutes: seq<OutRoute> := [];
      for i := 0 to parsedNumVehicles
        invariant |emptyRoutes| == i
        invariant forall j :: 0 <= j < i ==> emptyRoutes[j] == Routed(VrpService.DepotRoute(departure, j + 1))
      {
        emptyRoutes := emptyRoutes + [Routed(VrpService.DepotRoute(departure, i + 1))];
      }
      return Success(NoClientsMessage, emptyRoutes);
    }
    var cs := clients.value;
    if !VrpService.AllValid(cs) {
      return BadRequest(VrpService.ClientError);
    }
    var allLocations := VrpService.AllLocations(departure, cs);
    if matrices.Err? {
      return InternalError(matrices.message);
    }
    var failure := VrpService.MatrixFailure(matrices.value, |allLocations|);
    if failure.Some? {
      if failure.value == VrpService.SliceError {
        return InternalError(failure.value);
      }
      return ServerError(failure.value);
    }
    if solverResult.Err? {
      return InternalError(solverResult.message);
    }
    if solverResult.value.None? {
      return ServerError(VrpService.SolverError);
    }
    var raw := solverResult.value.value;
    var optimizedRoutes := Entries(raw, allLocations, cs, osrm);
    if optimizedRoutes != [] {
      if optimizedRoutes[0].Unrouted? {
        return InternalError(StopsLengthError);
      }
      var formattedFirstRoute := LogFirstRoute(optimizedRoutes[0].route, allLocations, matrices.value.distances.value);
    }
    return Success(SuccessMessage, optimizedRoutes);
  }

  // ----- Properties -----

  /** The handler answers 400 exactly for a departure that is not a pair of
      numbers, an unparsable or non-positive count, or, when there are clients,
      an invalid client; unlike the service it checks that both departure
      entries are numbers. */
  lemma RejectedRequests(departure: Value, clients: Field<seq<ClientData>>, numVehicles: Option<int>,
                         matrices: Result<Matrices>, solverResult: Result<Option<seq<RawRoute>>>,
                         osrm: seq<Coord> -> Option<OsrmRoute>)
    ensures var r := OptimizeReply(departure, clients, numVehicles, matrices, solverResult, osrm);
      (!IsNumberPair(departure) ==> r == BadRequest(VrpService.DepartureError)) &&
      (IsNumberPair(departure) && !VrpService.PositiveCount(numVehicles) ==> r == BadRequest(VrpService.VehiclesError)) &&
      ((IsNumberPair(departure) && VrpService.PositiveCount(numVehicles) && !NoClients(clients) &&
        !VrpService.AllValid(clients.value)) ==> r == BadRequest(VrpService.ClientError)) &&
      (r.BadRequest? <==> !IsNumberPair(departure) || !VrpService.PositiveCount(numVehicles) ||
                          (!NoClients(clients) && !VrpService.AllValid(clients.value)))
  {
  }

  /** Missing, non-array or empty clients give N depot routes `v1` … `vN` with zeros and no clients served. */
  lemma NoClientsGivesDepotRoutes(departure: Value, clients: Field<seq<ClientData>>, count: nat,
                                  matrices: Result<Matrices>, solverResult: Result<Option<seq<RawRoute>>>,
                                  osrm: seq<Coord> -> Option<OsrmRoute>)
    requires IsNumberPair(departure) && count > 0 && NoClients(clients)
    ensures var r := OptimizeReply(departure, clients, Some(count), matrices, solverResult, osrm);
      r.Success? && r.message == NoClientsMessage && |r.routes| == count &&
      forall i :: 0 <= i < count ==>
        r.routes[i].Routed? && r.routes[i].route.vehicleId == Str("v" + Decimal(i + 1)) &&
        r.routes[i].route.stops == [PairCoord(departure)] && r.routes[i].route.path == [PairCoord(departure)] &&
        r.routes[i].route.distance == 0.0 && r.routes[i].route.duration == 0.0 && r.routes[i].route.served == []
  {
  }

  /** Incomplete matrices answer 500: with the route's own message when the test of
      lines 67-70 fails, from the `catch` when logging a matrix with no first row throws. */
  lemma MatrixErrors(departure: Value, cs: seq<ClientData>, count: nat, ms: Matrices,
                     solverResult: Result<Option<seq<RawRoute>>>, osrm: seq<Coord> -> Option<OsrmRoute>)
    requires IsNumberPair(departure) && count > 0 && cs != [] && VrpService.AllValid(cs)
    ensures var r := OptimizeReply(departure, Given(cs), Some(count), Ok(ms), solverResult, osrm);
      ((ms.distances == Some([]) || ms.durations == Some([])) ==> r == InternalError(VrpService.SliceError)) &&
      (ms.distances != Some([]) && ms.durations != Some([]) &&
       (ms.distances.None? || ms.durations.None? || |ms.distances.value[0]| != |cs| + 1) ==>
         r == ServerError(VrpService.RoutingError))
  {
  }

  /** Every solver route gives one entry, in order; a route without stops is an
      entry with an empty path and zero figures, one with stops is the
      service's processed route. */
  lemma EntriesKeepEveryRoute(raw: seq<RawRoute>, locs: seq<Coord>, cs: seq<ClientData>,
                              osrm: seq<Coord> -> Option<OsrmRoute>, i: nat)
    requires i < |raw|
    ensures var e := Entries(raw, locs, cs, osrm)[i];
      (e.Unrouted? <==> !VrpService.HasStops(raw[i])) &&
      (e.Unrouted? ==> e.vehicleId == raw[i].vehicleId && e.path == [] && e.distance == 0.0 && e.duration == 0.0) &&
      (e.Routed? ==> e.route == VrpService.ProcessRoute(raw[i], locs, cs, osrm) && e.route.vehicleId == raw[i].vehicleId)
  {
  }

  /** The processed entries are exactly the routes the service returns: the
      handler keeps the routes without stops that the service skips, and nothing else differs. */
  lemma {:induction false} RoutedEntriesAreServiceRoutes(raw: seq<RawRoute>, locs: seq<Coord>, cs: seq<ClientData>,
                                                        osrm: seq<Coord> -> Option<OsrmRoute>)
    ensures |Entries(raw, locs, cs, osrm)| == |raw|
    ensures RoutedOf(Entries(raw, locs, cs, osrm)) == VrpService.Processed(raw, locs, cs, osrm)
    decreases |raw|
  {
    if raw != [] {
      var n := |raw| - 1;
      var es := Entries(raw, locs, cs, osrm);
      assert es[..n] == Entries(raw[..n], locs, cs, osrm);
      RoutedEntriesAreServiceRoutes(raw[..n], locs, cs, osrm);
      assert es[n] == Entry(raw[n], locs, cs, osrm);
    }
  }

  /** Where both succeed on the same clients, matrices and solver answer, the
      handler's processed routes are the service's routes; the service fails
      wherever the handler fails, except that the handler checks the departure's
      entries are numbers and the service checks the capacities. */
  lemma HandlerAgreesWithService(departure: Value, cs: seq<ClientData>, count: int, capacities: seq<real>,
                                 matrices: Result<Matrices>, solverResult: Result<Option<seq<RawRoute>>>,
                                 osrm: seq<Coord> -> Option<OsrmRoute>)
    requires cs != [] && |capacities| == count
    ensures var reply := OptimizeReply(departure, Given(cs), Some(count), matrices, solverResult, osrm);
      var result := VrpService.SolveVrpServiceResult(departure, Given(cs), Some(count), Given(capacities),
                                                     matrices, solverResult, osrm);
      (reply.Success? ==> result == Ok(RoutedOf(reply.routes))) &&
      ((result.Ok? && IsNumberPair(departure) &&
        (solverResult.value.value == [] || VrpService.HasStops(solverResult.value.value[0]))) ==> reply.Success?)
  {
    if solverResult.Ok? && solverResult.value.Some? && IsPair(departure) && VrpService.AllValid(cs) {
      RoutedEntriesAreServiceRoutes(solverResult.value.value, VrpService.AllLocations(departure, cs), cs, osrm);
    }
  }

  /** A route whose served clients are exactly its inner stops (a depot-to-depot
      route) gets one segment per leg, each labelled at both ends: from the depot,
      through `Client <id>` for each client in order, back to the depot. */
  lemma DepotToDepotItinerary(route: ServiceRoute, locs: seq<Coord>, distances: seq<seq<real>>)
    requires |route.stops| == |route.served| + 2
    ensures var log := FirstRouteLog(route, locs, distances);
      |log.details| == |route.stops| - 1 &&
      log.details[0].from == Some(DepotStop) && log.details[|log.details| - 1].to == Some(DepotStop) &&
      (forall i :: 0 <= i < |log.details| ==>
         log.details[i].from == Some(log.itinerary[i]) && log.details[i].to == Some(log.itinerary[i + 1])) &&
      forall i :: 0 <= i < |route.served| ==> log.details[i].to == Some(ClientStop(route.served[i]))
  {
    var log := FirstRouteLog(route, locs, distances);
    assert |log.itinerary| == |route.stops|;
    forall i | 0 <= i < |route.served|
      ensures log.details[i].to == Some(ClientStop(route.served[i]))
    {
      assert log.details[i] == SegmentAt(route.stops, log.itinerary, locs, distances, i);
    }
  }

  /** The solver's `[0, c1, …, cm, 0]` route is logged as the itinerary depot,
      `Client <id of c1>`, …, `Client <id of cm>`, depot, one segment per leg. */
  lemma SolverRouteItinerary(route: RawRoute, cs: seq<ClientData>, locs: seq<Coord>, distances: seq<seq<real>>,
                             osrm: seq<Coord> -> Option<OsrmRoute>)
    requires |locs| == |cs| + 1 && route.stopsIndices.Some?
    requires var ix := route.stopsIndices.value;
      |ix| >= 2 && ix[0] == 0 && ix[|ix| - 1] == 0 && forall j :: 0 < j < |ix| - 1 ==> 1 <= ix[j] <= |cs|
    ensures VrpService.HasStops(route)
    ensures var ix := route.stopsIndices.value;
      var log := FirstRouteLog(VrpService.ProcessRoute(route, locs, cs, osrm), locs, distances);
      |log.itinerary| == |ix| && |log.details| == |ix| - 1 && log.itinerary[0] == DepotStop && log.itinerary[|ix| - 1] == DepotStop &&
      forall j :: 0 < j < |ix| - 1 ==> log.itinerary[j] == ClientStop(cs[ix[j] - 1].id)
  {
    var ix := route.stopsIndices.value;
    VrpService.DepotToDepotRoute(ix, cs, locs);
    var r := VrpService.ProcessRoute(route, locs, cs, osrm);
    DepotToDepotItinerary(r, locs, distances);
    assert forall j :: 0 < j < |ix| - 1 ==> r.served[j - 1] == cs[ix[j] - 1].id;
  }

  /** With pairwise distinct locations, a stop is found at its own index. */
  lemma FindIndexOfDistinct(locs: seq<Coord>, k: nat)
    requires k < |locs| && forall a, b :: 0 <= a < b < |locs| ==> locs[a] != locs[b]
    ensures FindIndex(locs, locs[k]) == k
  {
  }

  /** With pairwise distinct locations, a segment between locations a and b
      measures the matrix entry from a to b, in kilometres. */
  lemma SegmentDistanceOfDistinct(locs: seq<Coord>, distances: seq<seq<real>>, a: nat, b: nat)
    requires a < |locs| && b < |locs| && forall x, y :: 0 <= x < y < |locs| ==> locs[x] != locs[y]
    requires a < |distances| && b < |distances[a]|
    ensures SegmentDistance(locs, distances, locs[a], locs[b]) == distances[a][b] / 1000.0
  {
    FindIndexOfDistinct(locs, a);
    FindIndexOfDistinct(locs, b);
  }
}
