/** controllers/calculetonnage..js, `optimizeVrp`: checks the request, looks the
    requested clients up and keeps those that exist, totals their demand and
    the available vehicles' capacity, runs the Python solver, then computes the
    demand of the clients that no route step names and answers with the
    solver's result. The database, the demand calculator and the solver process
    are inputs of the model. */
module DemandController {
  import opened Common

  /** What `Client.findById` found: `_id.toString()` and `coordinates`. */
  datatype DbClient = DbClient(idText: string, coordinates: Value)

  /** An entry of `validClientsForVrpSolver`. */
  datatype SolverClient = SolverClient(id: string, location: Value, demand: real)

  /** The solver process: its exit code, what it wrote on stderr, and
      `JSON.parse` of what it wrote on stdout (or the parse error's message). */
  datatype ScriptRun = ScriptRun(code: int, stderr: string, output: Result<Value>)

  /** The answer: status 400, status 500 with a message and an `error`, status
      200 with a message and `routes: []`, or the solver's parsed result as is. */
  datatype Reply =
    | BadRequest(message: string)
    | ServerError(message: string, error: string)
    | NoSolution(message: string, routes: seq<Value>)
    | Solved(result: Value)

  const InputMessage := "Données d'entrée VRP invalides. Assurez-vous d'avoir un lieu de départ, des clients et le nombre de véhicules."
  const NoClientMessage := "Aucun client valide trouvé avec des données complètes pour l'optimisation VRP."
  const NoVehicleMessage := "Aucun véhicule disponible trouvé pour l'optimisation VRP. Veuillez en ajouter un avec le statut 'disponible'."
  const ScriptMessage := "Erreur lors de l'optimisation des routes VRP."
  const NoSolutionMessage := "Le solveur VRP n'a pas trouvé de solution. Vérifiez les capacités des véhicules, les demandes des clients et les contraintes."
  const FormatMessage := "Erreur lors du traitement de la réponse VRP. Format de sortie inattendu."
  const InternalMessage := "Erreur interne du serveur lors de l'optimisation VRP."
  const NoSolutionText := "No solution found"

  // ----- Input (lines 16-52) -----

  /** The test of lines 18-20. */
  predicate ValidInput(departure: Value, clients: Value, numVehicles: Value) {
    Truthy(departure) && IsPair(departure) &&
    Truthy(clients) && clients.Arr? && |clients.items| > 0 &&
    Truthy(numVehicles) && numVehicles.Num? && numVehicles.n > 0.0
  }

  /** `clientData.id` for each requested client, in order; reading it from
      `null` or `undefined` throws, and the first such client's error is the one reported. */
  function ClientIds(cs: seq<Value>): (r: Result<seq<Value>>)
    ensures r.Ok? <==> forall i :: 0 <= i < |cs| ==> Member(cs[i], "id").Some?
    ensures r.Ok? ==> |r.value| == |cs| && forall i :: 0 <= i < |cs| ==> Some(r.value[i]) == Member(cs[i], "id")
    ensures r.Err? ==>
      exists i :: 0 <= i < |cs| && Member(cs[i], "id").None? && r.message == ReadError(cs[i], "id") &&
                  (forall j :: 0 <= j < i ==> Member(cs[j], "id").Some?)
    decreases |cs|
  {
    if cs == [] then Ok([])
    else match Member(cs[0], "id")
      case None => Err(ReadError(cs[0], "id"))
      case Some(id) =>
        var rest := ClientIds(cs[1..]);
        assert forall i :: 1 <= i < |cs| ==> cs[i] == cs[1..][i - 1];
        match rest
        case Err(e) => Err(e)
        case Ok(ids) => Ok([id] + ids)
  }

  /** What the `map` callback of lines 26-44 contributes for one id: nothing
      when the client is not in the database. */
  function FoundClient(id: Value, lookup: Value -> Option<DbClient>, demandKg: Value -> real): seq<SolverClient> {
    match lookup(id)
    case None => []
    case Some(db) => [SolverClient(db.idText, db.coordinates, demandKg(id))]
  }

  /** `validClientsForVrpSolver`: the clients found, in request order. */
  function Found(ids: seq<Value>, lookup: Value -> Option<DbClient>, demandKg: Value -> real): seq<SolverClient> {
    Collect(ids, id => FoundClient(id, lookup, demandKg))
  }

  function Demands(cs: seq<SolverClient>): (ds: seq<real>)
    ensures |ds| == |cs| && forall i :: 0 <= i < |cs| ==> ds[i] == cs[i].demand
  {
    seq(|cs|, i requires 0 <= i < |cs| => cs[i].demand)
  }

  /** The loop of lines 55-58. */
  method TotalDemand(cs: seq<SolverClient>) returns (total: real)
    ensures total == Sum(Demands(cs))
  {
    total := 0.0;
    for i := 0 to |cs|
      invariant total == Sum(Demands(cs[..i]))
    {
      assert Demands(cs[..i + 1]) == Demands(cs[..i]) + [cs[i].demand];
      SumAppend(Demands(cs[..i]), [cs[i].demand]);
      total := total + cs[i].demand;
    }
    assert cs[..|cs|] == cs;
  }

  /** The loop of lines 72-75, over the capacities of the available vehicles. */
  method TotalCapacity(capacities: seq<real>) returns (total: real)
    ensures total == Sum(capacities)
  {
    total := 0.0;
    for i := 0 to |capacities|
      invariant total == Sum(capacities[..i])
    {
      assert capacities[..i + 1][..i] == capacities[..i];
      total := total + capacities[i];
    }
    assert capacities[..|capacities|] == capacities;
  }

  // ----- Clients in the solution (lines 153-166) -----

  /** The ids added by `route.forEach(step => if (step.client_id) add(step.client_id))`;
      a `null` or `undefined` step throws. */
  function StepIds(steps: seq<Value>): Result<set<Value>>
    decreases |steps|
  {
    if steps == [] then Ok({})
    else
      var n := |steps| - 1;
      match StepIds(steps[..n])
      case Err(e) => Err(e)
      case Ok(ids) =>
        match Member(steps[n], "client_id")
        case None => Err(ReadError(steps[n], "client_id"))
        case Some(id) => Ok(if Truthy(id) then ids + {id} else ids)
  }

  /** One route of `result.routes`: reading `length` of `null` or `undefined`
      throws, a non-empty string has no `forEach`, an array's steps are scanned,
      anything else has no length and is passed over. */
  function RouteIds(route: Value): Result<set<Value>> {
    match route
    case Undefined => Err(ReadError(route, "length"))
    case Null => Err(ReadError(route, "length"))
    case Str(s) => if |s| > 0 then Err("route.forEach is not a function") else Ok({})
    case Arr(steps) => if |steps| > 0 then StepIds(steps) else Ok({})
    case _ => Ok({})
  }

  function RoutesIds(routes: seq<Value>): Result<set<Value>>
    decreases |routes|
  {
    if routes == [] then Ok({})
    else
      var n := |routes| - 1;
      match RoutesIds(routes[..n])
      case Err(e) => Err(e)
      case Ok(ids) =>
        match RouteIds(routes[n])
        case Err(e) => Err(e)
        case Ok(more) => Ok(ids + more)
  }

  /** `clientsInSolution` for the parsed result; `result.routes` throws when the result is `null`. */
  function ClientsInSolution(result: Value): Result<set<Value>> {
    match Member(result, "routes")
    case None => Err(ReadError(result, "routes"))
    case Some(routes) => if Truthy(routes) && routes.Arr? then RoutesIds(routes.items) else Ok({})
  }

  /** An error in the first `k` steps is the error of the whole scan. */
  lemma {:induction false} StepErrorSticks(steps: seq<Value>, k: nat)
    requires k <= |steps| && StepIds(steps[..k]).Err?
    ensures StepIds(steps) == StepIds(steps[..k])
    decreases |steps| - k
  {
    if k < |steps| {
      var n := |steps| - 1;
      assert steps[..n][..k] == steps[..k];
      StepErrorSticks(steps[..n], k);
    } else {
      assert steps[..k] == steps;
    }
  }

  /** An error in the first `k` routes is the error of the whole scan. */
  lemma {:induction false} RouteErrorSticks(routes: seq<Value>, k: nat)
    requires k <= |routes| && RoutesIds(routes[..k]).Err?
    ensures RoutesIds(routes) == RoutesIds(routes[..k])
    decreases |routes| - k
  {
    if k < |routes| {
      var n := |routes| - 1;
      assert routes[..n][..k] == routes[..k];
      RouteErrorSticks(routes[..n], k);
    } else {
      assert routes[..k] == routes;
    }
  }

  /** The inner `forEach` of lines 157-163. */
  method AddStepIds(steps: seq<Value>, ids: set<Value>) returns (r: Result<set<Value>>)
    ensures r == (match StepIds(steps) case Err(e) => Err(e) case Ok(more) => Ok(ids + more))
  {
    var clientsInSolution := ids;
    for j := 0 to |steps|
      invariant StepIds(steps[..j]).Ok? && clientsInSolution == ids + StepIds(steps[..j]).value
    {
      assert steps[..j + 1][..j] == steps[..j];
      var clientId := Member(steps[j], "client_id");
      if clientId.None? {
        StepErrorSticks(steps, j + 1);
        return Err(ReadError(steps[j], "client_id"));
      }
      if Truthy(clientId.value) {
        clientsInSolution := clientsInSolution + {clientId.value};
      }
    }
    assert steps[..|steps|] == steps;
    return Ok(clientsInSolution);
  }

  /** Lines 153-166: the ids named by a truthy `client_id` in any step of any route. */
  method CollectClientsInSolution(result: Value) returns (r: Result<set<Value>>)
    ensures r == ClientsInSolution(result)
  {
    var routesField := Member(result, "routes");
    if routesField.None? {
      return Err(ReadError(result, "routes"));
    }
    var clientsInSolution: set<Value> := {};
    if Truthy(routesField.value) && routesField.value.Arr? {
      var routes := routesField.value.items;
      for i := 0 to |routes|
        invariant RoutesIds(routes[..i]).Ok? && clientsInSolution == RoutesIds(routes[..i]).value
      {
        assert routes[..i + 1][..i] == routes[..i];
        var route := routes[i];
        if route.Undefined? || route.Null? {
          RouteErrorSticks(routes, i + 1);
          return Err(ReadError(route, "length"));
        }
        if route.Str? && |route.s| > 0 {
          RouteErrorSticks(routes, i + 1);
          return Err("route.forEach is not a function");
        }
        if route.Arr? && |route.items| > 0 {
          var added := AddStepIds(route.items, clientsInSolution);
          if added.Err? {
            RouteErrorSticks(routes, i + 1);
            return added;
          }
          clientsInSolution := added.value;
        }
      }
      assert routes[..|routes|] == routes;
    }
    return Ok(clientsInSolution);
  }

  // ----- Unmet demand (lines 168-176) -----

  /** The demands of the clients whose id no route step names, in order. */
  function Unserved(cs: seq<SolverClient>, served: set<Value>): seq<real> {
    Collect(cs, (c: SolverClient) => if Str(c.id) in served then [] else [c.demand])
  }

  /** `Math.max(0, unmetDemandKg)`. */
  function AtLeastZero(x: real): (r: real)
    ensures r >= 0.0 && r >= x && (r == x || r == 0.0)
  {
    if x < 0.0 then 0.0 else x
  }

  /** Lines 168-176: adds up the demand of each client missing from the solution, then clamps at 0. */
  method UnmetDemand(cs: seq<SolverClient>, clientsInSolution: set<Value>) returns (unmetDemandKg: real)
    ensures unmetDemandKg == AtLeastZero(Sum(Unserved(cs, clientsInSolution)))
  {
    unmetDemandKg := 0.0;
    for i := 0 to |cs|
      invariant unmetDemandKg == Sum(Unserved(cs[..i], clientsInSolution))
    {
      var client := cs[i];
      assert cs[..i + 1][..i] == cs[..i];
      ghost var contribution := if Str(client.id) in clientsInSolution then [] else [client.demand];
      SumAppend(Unserved(cs[..i], clientsInSolution), contribution);
      if Str(client.id) !in clientsInSolution {
        unmetDemandKg := unmetDemandKg + client.demand;
      }
    }
    assert cs[..|cs|] == cs;
    unmetDemandKg := AtLeastZero(unmetDemandKg);
  }

  // ----- The answer (lines 124-197) -----

  /** `result.error && result.error.includes("No solution found")`: a string is
      searched, an array is searched for that element, another truthy value
      has no `includes`. */
  function NoSolutionFlag(result: Value): Result<bool> {
    match Member(result, "error")
    case None => Err(ReadError(result, "error"))
    case Some(error) =>
      if !Truthy(error) then Ok(false)
      else match error
        case Str(s) => Ok(Includes(s, NoSolutionText))
        case Arr(items) => Ok(Str(NoSolutionText) in items)
        case _ => Err("result.error.includes is not a function")
  }

  /** What `optimizeVrp` answers; `lookup` is `Client.findById`, `demandKg` is
      `calculateClientDemandKg`, `capacities` the capacities of the vehicles
      whose status is `disponible`. */
  function OptimizeVrpReply(departure: Value, clients: Value, numVehicles: Value,
                            lookup: Value -> Option<DbClient>, demandKg: Value -> real,
                            capacities: seq<real>, script: ScriptRun): Reply
  {
    if !ValidInput(departure, clients, numVehicles) then BadRequest(InputMessage)
    else match ClientIds(clients.items)
      case Err(e) => ServerError(InternalMessage, e)
      case Ok(ids) =>
        if Found(ids, lookup, demandKg) == [] then BadRequest(NoClientMessage)
        else if capacities == [] then BadRequest(NoVehicleMessage)
        else if script.code != 0 then ServerError(ScriptMessage, script.stderr)
        else match script.output
          case Err(e) => ServerError(FormatMessage, e)
          case Ok(result) =>
            match ClientsInSolution(result)
            case Err(e) => ServerError(FormatMessage, e)
            case Ok(_) =>
              match NoSolutionFlag(result)
              case Err(e) => ServerError(FormatMessage, e)
              case Ok(noSolution) => if noSolution then NoSolution(NoSolutionMessage, []) else Solved(result)
  }

  /** `optimizeVrp`. The totals and the unmet demand are computed as the source
      computes them; they are only logged. */
  method OptimizeVrp(departure: Value, clients: Value, numVehicles: Value,
                     lookup: Value -> Option<DbClient>, demandKg: Value -> real,
                     capacities: seq<real>, script: ScriptRun) returns (reply: Reply)
    ensures reply == OptimizeVrpReply(departure, clients, numVehicles, lookup, demandKg, capacities, script)
  {
    if !ValidInput(departure, clients, numVehicles) {
      return BadRequest(InputMessage);
    }
    var ids := ClientIds(clients.items);
    if ids.Err? {
      return ServerError(InternalMessage, ids.message);
    }
    var validClients := Found(ids.value, lookup, demandKg);
    if validClients == [] {
      return BadRequest(NoClientMessage);
    }
    var totalOverallDemandKg := TotalDemand(validClients);
    var totalAvailableVehicleCapacityKg := TotalCapacity(capacities);
    if capacities == [] {
      return BadRequest(NoVehicleMessage);
    }
    if script.code != 0 {
      return ServerError(ScriptMessage, script.stderr);
    }
    if script.output.Err? {
      return ServerError(FormatMessage, script.output.message);
    }
    var result := script.output.value;
    var clientsInSolution := CollectClientsInSolution(result);
    if clientsInSolution.Err? {
      return ServerError(FormatMessage, clientsInSolution.message);
    }
    var unmetDemandKg := UnmetDemand(validClients, clientsInSolution.value);
    var noSolution := NoSolutionFlag(result);
    if noSolution.Err? {
      return ServerError(FormatMessage, noSolution.message);
    }
    if noSolution.value {
      return NoSolution(NoSolutionMessage, []);
    }
    return Solved(result);
  }

  // ----- Properties -----

  /** The request is rejected with 400 exactly when the departure is not a
      pair, the client list is missing, not an array or empty, or the vehicle
      count is not a positive number. */
  lemma RejectedInput(departure: Value, clients: Value, numVehicles: Value,
                      lookup: Value -> Option<DbClient>, demandKg: Value -> real,
                      capacities: seq<real>, script: ScriptRun)
    ensures OptimizeVrpReply(departure, clients, numVehicles, lookup, demandKg, capacities, script) == BadRequest(InputMessage)
            <==> !(IsPair(departure) && clients.Arr? && |clients.items| > 0 && numVehicles.Num? && numVehicles.n > 0.0)
  {
  }

  /** A client missing from the database is dropped and the others keep their order. */
  lemma UnknownClientDropped(a: seq<Value>, id: Value, b: seq<Value>, lookup: Value -> Option<DbClient>, demandKg: Value -> real)
    requires lookup(id).None?
    ensures Found(a + [id] + b, lookup, demandKg) == Found(a, lookup, demandKg) + Found(b, lookup, demandKg)
  {
    var f := (id: Value) => FoundClient(id, lookup, demandKg);
    CollectAppend(a + [id], b, f);
    CollectAppend(a, [id], f);
    assert [id][..0] == [];
  }

  /** No client is kept exactly when none of them is in the database; then the answer is 400. */
  lemma NoneFoundIsRejected(departure: Value, clients: Value, numVehicles: Value,
                            lookup: Value -> Option<DbClient>, demandKg: Value -> real,
                            capacities: seq<real>, script: ScriptRun)
    requires ValidInput(departure, clients, numVehicles) && ClientIds(clients.items).Ok?
    ensures var ids := ClientIds(clients.items).value;
      (Found(ids, lookup, demandKg) == [] <==> forall i :: 0 <= i < |ids| ==> lookup(ids[i]).None?) &&
      ((forall i :: 0 <= i < |ids| ==> lookup(ids[i]).None?) ==>
         OptimizeVrpReply(departure, clients, numVehicles, lookup, demandKg, capacities, script) == BadRequest(NoClientMessage))
  {
    var ids := ClientIds(clients.items).value;
    var f := (id: Value) => FoundClient(id, lookup, demandKg);
    CollectEmpty(ids, f);
  }

  /** When every requested client exists, each is kept, in order, with its database id, coordinates and demand. */
  lemma {:induction false} AllFound(ids: seq<Value>, lookup: Value -> Option<DbClient>, demandKg: Value -> real)
    requires forall i :: 0 <= i < |ids| ==> lookup(ids[i]).Some?
    ensures |Found(ids, lookup, demandKg)| == |ids|
    ensures forall i :: 0 <= i < |ids| ==>
      Found(ids, lookup, demandKg)[i] ==
      SolverClient(lookup(ids[i]).value.idText, lookup(ids[i]).value.coordinates, demandKg(ids[i]))
    decreases |ids|
  {
    if ids != [] {
      var n := |ids| - 1;
      AllFound(ids[..n], lookup, demandKg);
      assert forall i :: 0 <= i < n ==> ids[..n][i] == ids[i];
    }
  }

  /** With vehicles missing, found clients answer 400. */
  lemma NoVehicleIsRejected(departure: Value, clients: Value, numVehicles: Value,
                            lookup: Value -> Option<DbClient>, demandKg: Value -> real, script: ScriptRun)
    requires ValidInput(departure, clients, numVehicles) && ClientIds(clients.items).Ok?
    requires Found(ClientIds(clients.items).value, lookup, demandKg) != []
    ensures OptimizeVrpReply(departure, clients, numVehicles, lookup, demandKg, [], script) == BadRequest(NoVehicleMessage)
  {
  }

  /** A scan that succeeds collects exactly the truthy `client_id` values of the steps. */
  lemma {:induction false} StepIdsMembers(steps: seq<Value>, v: Value)
    requires StepIds(steps).Ok?
    ensures v in StepIds(steps).value <==>
      exists j :: 0 <= j < |steps| && Member(steps[j], "client_id") == Some(v) && Truthy(v)
    decreases |steps|
  {
    if steps != [] {
      var n := |steps| - 1;
      StepIdsMembers(steps[..n], v);
      assert forall j :: 0 <= j < n ==> steps[..n][j] == steps[j];
    }
  }

  /** A parsed result without a `routes` array names no client: the solver
      script's own answer, which has `optimized_routes` instead, is one. */
  lemma NoRoutesArrayNamesNoClient(result: Value)
    requires result.Obj? && ("routes" !in result.fields || !result.fields["routes"].Arr?)
    ensures ClientsInSolution(result) == Ok({})
  {
  }

  /** When every client is named in the solution the unmet demand is 0. */
  lemma AllServedNoUnmetDemand(cs: seq<SolverClient>, served: set<Value>)
    requires forall i :: 0 <= i < |cs| ==> Str(cs[i].id) in served
    ensures AtLeastZero(Sum(Unserved(cs, served))) == 0.0
  {
    CollectEmpty(cs, (c: SolverClient) => if Str(c.id) in served then [] else [c.demand]);
  }

  /** When no client is named, the unmet demand is the whole demand (clamped at 0). */
  lemma {:induction false} NoneServedAllUnmet(cs: seq<SolverClient>, served: set<Value>)
    requires forall i :: 0 <= i < |cs| ==> Str(cs[i].id) !in served
    ensures Unserved(cs, served) == Demands(cs)
    ensures AtLeastZero(Sum(Unserved(cs, served))) == AtLeastZero(Sum(Demands(cs)))
    decreases |cs|
  {
    if cs != [] {
      var n := |cs| - 1;
      NoneServedAllUnmet(cs[..n], served);
      assert Demands(cs) == Demands(cs[..n]) + [cs[n].demand];
    }
  }

  /** With non-negative demands the unmet demand lies between 0 and the total demand. */
  lemma {:induction false} UnmetAtMostTotal(cs: seq<SolverClient>, served: set<Value>)
    requires forall i :: 0 <= i < |cs| ==> cs[i].demand >= 0.0
    ensures 0.0 <= Sum(Unserved(cs, served)) <= Sum(Demands(cs))
    decreases |cs|
  {
    if cs != [] {
      var n := |cs| - 1;
      UnmetAtMostTotal(cs[..n], served);
      assert Demands(cs) == Demands(cs[..n]) + [cs[n].demand];
      SumAppend(Demands(cs[..n]), [cs[n].demand]);
      var contribution := if Str(cs[n].id) in served then [] else [cs[n].demand];
      SumAppend(Unserved(cs[..n], served), contribution);
    }
  }

  /** Once the solver ran and its output was read: an `error` that says "No
      solution found" (a string containing it, or an array holding it) answers
      200 with no routes; a result whose `error` is absent or falsy, or is a
      string or array without the phrase, is answered unchanged, whatever the
      unmet demand; any other truthy `error` has no `includes` and throws into
      the format `catch`. */
  lemma SolverVerdict(departure: Value, clients: Value, numVehicles: Value,
                      lookup: Value -> Option<DbClient>, demandKg: Value -> real,
                      capacities: seq<real>, stderr: string, fields: map<string, Value>, a: string, b: string)
    requires ValidInput(departure, clients, numVehicles) && ClientIds(clients.items).Ok?
    requires Found(ClientIds(clients.items).value, lookup, demandKg) != [] && capacities != []
    requires ClientsInSolution(Obj(fields)).Ok?
    ensures "error" in fields && fields["error"] == Str(a + NoSolutionText + b) ==>
      OptimizeVrpReply(departure, clients, numVehicles, lookup, demandKg, capacities, ScriptRun(0, stderr, Ok(Obj(fields))))
        == NoSolution(NoSolutionMessage, [])
    ensures "error" !in fields ==>
      OptimizeVrpReply(departure, clients, numVehicles, lookup, demandKg, capacities, ScriptRun(0, stderr, Ok(Obj(fields))))
        == Solved(Obj(fields))
    ensures "error" in fields && !Truthy(fields["error"]) ==>
      OptimizeVrpReply(departure, clients, numVehicles, lookup, demandKg, capacities, ScriptRun(0, stderr, Ok(Obj(fields))))
        == Solved(Obj(fields))
    ensures "error" in fields && fields["error"].Str? ==>
      OptimizeVrpReply(departure, clients, numVehicles, lookup, demandKg, capacities, ScriptRun(0, stderr, Ok(Obj(fields))))
        == if Includes(fields["error"].s, NoSolutionText) then NoSolution(NoSolutionMessage, []) else Solved(Obj(fields))
    ensures "error" in fields && fields["error"].Arr? ==>
      OptimizeVrpReply(departure, clients, numVehicles, lookup, demandKg, capacities, ScriptRun(0, stderr, Ok(Obj(fields))))
        == if Str(NoSolutionText) in fields["error"].items then NoSolution(NoSolutionMessage, []) else Solved(Obj(fields))
    ensures "error" in fields && Truthy(fields["error"]) && !fields["error"].Str? && !fields["error"].Arr? ==>
      OptimizeVrpReply(departure, clients, numVehicles, lookup, demandKg, capacities, ScriptRun(0, stderr, Ok(Obj(fields))))
        == ServerError(FormatMessage, "result.error.includes is not a function")
  {
    IncludesMiddle(a, NoSolutionText, b);
  }
}
