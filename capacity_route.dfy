/** routes/calculeTonnage.js, `POST /optimize`: weighs the clients' orders
    with the tonnage calculator, totals the capacity of the available vehicles,
    and runs the VRP service, one vehicle per available vehicle, only when that
    capacity covers the demand. The catalogue, the vehicles and the VRP
    service's own inputs (matrices, solver answer, OSRM) are inputs of the model. */
module CapacityRoute {
  import opened Common
  import Tonnage
  import DistanceMatrixService
  import VrpService

  type OsrmRoute = DistanceMatrixService.OsrmRoute

  /** A client of the request: `customerId`, `_id`, `coordinates`, and `products`
      (`None` when missing or not an array). */
  datatype RouteClient = RouteClient(customerId: Value, underscoreId: Value, coordinates: Value,
                                     products: Option<seq<Tonnage.OrderLine>>)

  /** The answer. `Answer` is status 200 (`optimized_routes`, the demand and
      capacity totals, `sufficientVehicles`, `messageCapacite`); `NotFound` is
      status 404 with the same figures; `ServerError` is the `catch` of lines
      120-130, whose body carries zero totals and `sufficientVehicles: false`. */
  datatype Reply =
    | BadRequest(message: string)
    | NotFound(message: string, demand: real, capacity: real, sufficient: bool, capacityMessage: string)
    | ServerError(message: string, error: string, demand: real, capacity: real, sufficient: bool, capacityMessage: string)
    | Answer(routes: seq<VrpService.ServiceRoute>, demand: real, capacity: real, sufficient: bool, capacityMessage: string)

  const DepartureMessage := "Invalid departure location."
  const NoClientsMessage := "Aucun client fourni, pas besoin d'optimisation VRP."
  const ClientMessage := "Invalid client data: missing products or coordinates."
  const NoVehicleMessage := "Aucun véhicule 'disponible' trouvé dans la base de données."
  const NoVehicleCapacityMessage := "Aucun véhicule disponible pour effectuer les livraisons."
  const SufficientMessage := "La capacité des véhicules disponibles est suffisante pour répondre à la demande."
  const InsufficientMessage := "La capacité des véhicules disponibles est insuffisante. Des véhicules supplémentaires sont nécessaires."
  const VrpErrorPrefix := "Erreur lors de l'optimisation VRP: "

  /** The test of lines 31-33. */
  predicate ValidClient(c: RouteClient) {
    c.products.Some? && Truthy(c.coordinates)
  }

  /** The tonnage `calculerTonnageClient` gives a client's products. */
  function ClientTonnage(c: RouteClient, catalogue: seq<Tonnage.Product>): real {
    Tonnage.TonnageOf(c.products, Some(catalogue))
  }

  function ClientTonnages(cs: seq<RouteClient>, catalogue: seq<Tonnage.Product>): (ts: seq<real>)
    ensures |ts| == |cs| && forall i :: 0 <= i < |cs| ==> ts[i] == ClientTonnage(cs[i], catalogue)
  {
    seq(|cs|, i requires 0 <= i < |cs| => ClientTonnage(cs[i], catalogue))
  }

  /** The loop of lines 40-45: `tonnageTotalDemandeClients`. */
  method TotalDemand(cs: seq<RouteClient>, catalogue: seq<Tonnage.Product>) returns (total: real)
    requires forall i :: 0 <= i < |cs| ==> ValidClient(cs[i])
    ensures total == Sum(ClientTonnages(cs, catalogue))
  {
    total := 0.0;
    for i := 0 to |cs|
      invariant total == Sum(ClientTonnages(cs[..i], catalogue))
    {
      var client := cs[i];
      assert ClientTonnages(cs[..i + 1], catalogue) == ClientTonnages(cs[..i], catalogue) + [ClientTonnage(client, catalogue)];
      SumAppend(ClientTonnages(cs[..i], catalogue), [ClientTonnage(client, catalogue)]);
      if client.products.Some? {
        var tonnes := Tonnage.CalculerTonnageClient(client.products, Some(catalogue));
        total := total + tonnes;
      }
    }
    assert cs[..|cs|] == cs;
  }

  /** `Number(v.tonnageCapacity) || 0` for each available vehicle (lines 61, 89);
      `None` stands for a capacity that `Number` turns into NaN. */
  function VehicleCapacities(vehicles: seq<Option<real>>): (caps: seq<real>)
    ensures |caps| == |vehicles| && forall i :: 0 <= i < |vehicles| ==> caps[i] == OrZero(vehicles[i])
  {
    seq(|vehicles|, i requires 0 <= i < |vehicles| => OrZero(vehicles[i]))
  }

  /** The `reduce` of lines 60-62. */
  function TotalCapacity(vehicles: seq<Option<real>>): real {
    Sum(VehicleCapacities(vehicles))
  }

  /** `clientsForVRP` (lines 83-87): the id is `customerId || _id`, the demand
      the sum of the tonnages of the client's lines taken one at a time. */
  function ForVrp(c: RouteClient, catalogue: seq<Tonnage.Product>): VrpService.ClientData
    requires ValidClient(c)
  {
    VrpService.ClientData(if Truthy(c.customerId) then c.customerId else c.underscoreId, c.coordinates,
                          Num(Sum(Tonnage.SingleLineTonnages(c.products.value, catalogue))))
  }

  function ClientsForVrp(cs: seq<RouteClient>, catalogue: seq<Tonnage.Product>): (out: seq<VrpService.ClientData>)
    requires forall i :: 0 <= i < |cs| ==> ValidClient(cs[i])
    ensures |out| == |cs| && forall i :: 0 <= i < |cs| ==> out[i] == ForVrp(cs[i], catalogue)
  {
    seq(|cs|, i requires 0 <= i < |cs| => ForVrp(cs[i], catalogue))
  }

  /** What the handler answers. */
  function OptimizeReply(departure: Value, clients: Field<seq<RouteClient>>, catalogue: seq<Tonnage.Product>,
                         vehicles: seq<Option<real>>, matrices: Result<VrpService.Matrices>,
                         solverResult: Result<Option<seq<VrpService.RawRoute>>>,
                         osrm: seq<Coord> -> Option<OsrmRoute>): Reply
  {
    if !Truthy(departure) || !IsPair(departure) then BadRequest(DepartureMessage)
    else if !clients.Given? || clients.value == [] then Answer([], 0.0, 0.0, true, NoClientsMessage)
    else if exists i :: 0 <= i < |clients.value| && !ValidClient(clients.value[i]) then BadRequest(ClientMessage)
    else
      var cs := clients.value;
      var demand := Sum(ClientTonnages(cs, catalogue));
      if vehicles == [] then NotFound(NoVehicleMessage, demand, 0.0, false, NoVehicleCapacityMessage)
      else
        var capacity := TotalCapacity(vehicles);
        if demand <= capacity then
          match VrpService.SolveVrpServiceResult(departure, Given(ClientsForVrp(cs, catalogue)), Some(|vehicles|),
                                                 Given(VehicleCapacities(vehicles)), matrices, solverResult, osrm)
          case Err(e) =>
            var message := VrpErrorPrefix + e;
            ServerError(message, message, 0.0, 0.0, false, message)
          case Ok(routes) => Answer(routes, demand, capacity, true, SufficientMessage)
        else Answer([], demand, capacity, false, InsufficientMessage)
  }

  /** The handler of lines 12-131. */
  method Optimize(departure: Value, clients: Field<seq<RouteClient>>, catalogue: seq<Tonnage.Product>,
                  vehicles: seq<Option<real>>, matrices: Result<VrpService.Matrices>,
                  solverResult: Result<Option<seq<VrpService.RawRoute>>>,
                  osrm: seq<Coord> -> Option<OsrmRoute>) returns (reply: Reply)
    ensures reply == OptimizeReply(departure, clients, catalogue, vehicles, matrices, solverResult, osrm)
  {
    if !Truthy(departure) || !IsPair(departure) {
      return BadRequest(DepartureMessage);
    }
    if !clients.Given? || clients.value == [] {
      return Answer([], 0.0, 0.0, true, NoClientsMessage);
    }
    var cs := clients.value;
    for i := 0 to |cs|
      invariant forall j :: 0 <= j < i ==> ValidClient(cs[j])
    {
      if !ValidClient(cs[i]) {
        return BadRequest(ClientMessage);
      }
    }
    var tonnageTotalDemandeClients := TotalDemand(cs, catalogue);
    if vehicles == [] {
      return NotFound(NoVehicleMessage, tonnageTotalDemandeClients, 0.0, false, NoVehicleCapacityMessage);
    }
    var capacite := TotalCapacity(vehicles);
    var sufficientVehicles := tonnageTotalDemandeClients <= capacite;
    var messageCapacite := if sufficientVehicles then SufficientMessage else InsufficientMessage;
    var optimizedRoutes := [];
    if sufficientVehicles {
      var clientsForVrp := ClientsForVrp(cs, catalogue);
      var vehicleCapacitiesForVrp := VehicleCapacities(vehicles);
      var solved := VrpService.SolveVrpService(departure, Given(clientsForVrp), Some(|vehicles|),
                                               Given(vehicleCapacitiesForVrp), matrices, solverResult, osrm);
      if solved.Err? {
        var message := VrpErrorPrefix + solved.message;
        return ServerError(message, message, 0.0, 0.0, false, message);
      }
      optimizedRoutes := solved.value;
    }
    return Answer(optimizedRoutes, tonnageTotalDemandeClients, capacite, sufficientVehicles, messageCapacite);
  }

  // ----- Properties -----

  /** The answers given before any vehicle is looked at. */
  lemma EarlyAnswers(departure: Value, clients: Field<seq<RouteClient>>, catalogue: seq<Tonnage.Product>,
                     vehicles: seq<Option<real>>, matrices: Result<VrpService.Matrices>,
                     solverResult: Result<Option<seq<VrpService.RawRoute>>>, osrm: seq<Coord> -> Option<OsrmRoute>)
    ensures var r := OptimizeReply(departure, clients, catalogue, vehicles, matrices, solverResult, osrm);
      (!IsPair(departure) ==> r == BadRequest(DepartureMessage)) &&
      (IsPair(departure) && (!clients.Given? || clients.value == []) ==> r == Answer([], 0.0, 0.0, true, NoClientsMessage)) &&
      ((IsPair(departure) && clients.Given? &&
        exists i :: 0 <= i < |clients.value| && !ValidClient(clients.value[i])) ==> r == BadRequest(ClientMessage))
  {
  }

  /** Without an available vehicle the answer is 404 with the demand, zero capacity and `sufficientVehicles: false`. */
  lemma NoVehicleIsNotFound(departure: Value, cs: seq<RouteClient>, catalogue: seq<Tonnage.Product>,
                            matrices: Result<VrpService.Matrices>,
                            solverResult: Result<Option<seq<VrpService.RawRoute>>>, osrm: seq<Coord> -> Option<OsrmRoute>)
    requires IsPair(departure) && cs != [] && forall i :: 0 <= i < |cs| ==> ValidClient(cs[i])
    ensures OptimizeReply(departure, Given(cs), catalogue, [], matrices, solverResult, osrm)
            == NotFound(NoVehicleMessage, Sum(ClientTonnages(cs, catalogue)), 0.0, false, NoVehicleCapacityMessage)
  {
  }

  /** A vehicle whose capacity is not a number adds nothing to the total. */
  lemma NonNumericCapacityCountsZero(a: seq<Option<real>>, b: seq<Option<real>>)
    ensures TotalCapacity(a + [None] + b) == TotalCapacity(a) + TotalCapacity(b)
  {
    assert VehicleCapacities(a + [None] + b) == VehicleCapacities(a) + [0.0] + VehicleCapacities(b);
    SumAppend(VehicleCapacities(a) + [0.0], VehicleCapacities(b));
    SumAppend(VehicleCapacities(a), [0.0]);
    assert [0.0][..0] == [];
  }

  /** Past validation, with vehicles: when the demand exceeds the capacity the
      VRP service is not called and the routes are empty. */
  lemma InsufficientCapacity(departure: Value, cs: seq<RouteClient>, catalogue: seq<Tonnage.Product>,
                             vehicles: seq<Option<real>>, matrices: Result<VrpService.Matrices>,
                             solverResult: Result<Option<seq<VrpService.RawRoute>>>, osrm: seq<Coord> -> Option<OsrmRoute>)
    requires IsPair(departure) && cs != [] && vehicles != [] && forall i :: 0 <= i < |cs| ==> ValidClient(cs[i])
    requires Sum(ClientTonnages(cs, catalogue)) > TotalCapacity(vehicles)
    ensures OptimizeReply(departure, Given(cs), catalogue, vehicles, matrices, solverResult, osrm)
            == Answer([], Sum(ClientTonnages(cs, catalogue)), TotalCapacity(vehicles), false, InsufficientMessage)
  {
  }

  /** Past validation, with vehicles: when the capacity covers the demand the
      answer is the VRP service's routes, or its error behind the prefix. */
  lemma SufficientCapacity(departure: Value, cs: seq<RouteClient>, catalogue: seq<Tonnage.Product>,
                           vehicles: seq<Option<real>>, matrices: Result<VrpService.Matrices>,
                           solverResult: Result<Option<seq<VrpService.RawRoute>>>, osrm: seq<Coord> -> Option<OsrmRoute>)
    requires IsPair(departure) && cs != [] && vehicles != [] && forall i :: 0 <= i < |cs| ==> ValidClient(cs[i])
    requires Sum(ClientTonnages(cs, catalogue)) <= TotalCapacity(vehicles)
    ensures var r := OptimizeReply(departure, Given(cs), catalogue, vehicles, matrices, solverResult, osrm);
      var service := VrpService.SolveVrpServiceResult(departure, Given(ClientsForVrp(cs, catalogue)), Some(|vehicles|),
                                                      Given(VehicleCapacities(vehicles)), matrices, solverResult, osrm);
      (service.Ok? ==> r == Answer(service.value, Sum(ClientTonnages(cs, catalogue)), TotalCapacity(vehicles), true, SufficientMessage)) &&
      (service.Err? ==> r.ServerError? && r.message == VrpErrorPrefix + service.message && !r.sufficient)
  {
  }

  /** Whatever the request, a 200 answer says `sufficientVehicles` exactly when
      its demand is at most its capacity, and carries no route otherwise. */
  lemma SufficientFlag(departure: Value, clients: Field<seq<RouteClient>>, catalogue: seq<Tonnage.Product>,
                       vehicles: seq<Option<real>>, matrices: Result<VrpService.Matrices>,
                       solverResult: Result<Option<seq<VrpService.RawRoute>>>, osrm: seq<Coord> -> Option<OsrmRoute>)
    ensures var r := OptimizeReply(departure, clients, catalogue, vehicles, matrices, solverResult, osrm);
      r.Answer? ==> (r.sufficient <==> r.demand <= r.capacity) && (!r.sufficient ==> r.routes == [])
  {
  }

  /** The demand sent to the VRP service for a client is the client's tonnage:
      summing its lines one at a time gives the same figure. */
  lemma ClientDemandIsTonnage(c: RouteClient, catalogue: seq<Tonnage.Product>)
    requires ValidClient(c)
    ensures ForVrp(c, catalogue).demand == Num(ClientTonnage(c, catalogue))
  {
    Tonnage.TonnageIsSumOfSingleLines(c.products.value, catalogue);
  }

  /** The VRP service is called with one vehicle per available vehicle and a
      capacity list of that length, so its count and capacity checks pass: it
      can only fail on a client, the matrices or the solver. */
  lemma ServiceCallPassesFleetChecks(departure: Value, cs: seq<RouteClient>, catalogue: seq<Tonnage.Product>,
                                     vehicles: seq<Option<real>>, matrices: Result<VrpService.Matrices>,
                                     solverResult: Result<Option<seq<VrpService.RawRoute>>>, osrm: seq<Coord> -> Option<OsrmRoute>)
    requires IsPair(departure) && cs != [] && vehicles != [] && forall i :: 0 <= i < |cs| ==> ValidClient(cs[i])
    ensures var service := VrpService.SolveVrpServiceResult(departure, Given(ClientsForVrp(cs, catalogue)), Some(|vehicles|),
                                                            Given(VehicleCapacities(vehicles)), matrices, solverResult, osrm);
      service.Err? ==>
        service == Err(VrpService.ClientError) || service == Err(VrpService.SliceError) ||
        service == Err(VrpService.RoutingError) || service == Err(VrpService.SolverError) ||
        (matrices.Err? && service == Err(matrices.message)) || (solverResult.Err? && service == Err(solverResult.message))
  {
  }

  /** A client whose products weigh nothing (unknown products or units) has a
      demand the VRP service rejects: with enough capacity the answer is a 500. */
  lemma WeightlessClientFails(departure: Value, cs: seq<RouteClient>, catalogue: seq<Tonnage.Product>,
                              vehicles: seq<Option<real>>, matrices: Result<VrpService.Matrices>,
                              solverResult: Result<Option<seq<VrpService.RawRoute>>>, osrm: seq<Coord> -> Option<OsrmRoute>, k: nat)
    requires IsPair(departure) && vehicles != [] && k < |cs| && forall i :: 0 <= i < |cs| ==> ValidClient(cs[i])
    requires ClientTonnage(cs[k], catalogue) == 0.0
    requires Sum(ClientTonnages(cs, catalogue)) <= TotalCapacity(vehicles)
    ensures OptimizeReply(departure, Given(cs), catalogue, vehicles, matrices, solverResult, osrm)
            == ServerError(VrpErrorPrefix + VrpService.ClientError, VrpErrorPrefix + VrpService.ClientError, 0.0, 0.0, false,
                           VrpErrorPrefix + VrpService.ClientError)
  {
    var vcs := ClientsForVrp(cs, catalogue);
    ClientDemandIsTonnage(cs[k], catalogue);
    assert !VrpService.ValidClient(vcs[k]);
    VrpService.ServiceThrows(departure, vcs, Some(|vehicles|), Given(VehicleCapacities(vehicles)), matrices, solverResult, osrm);
  }
}
