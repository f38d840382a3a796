/** controllers/vrpController.js, `optimizeRoutes`: the simplified optimiser
    that needs no solver. After validating the request it totals each
    client's product quantities, deals the clients out round-robin (client i
    to vehicle i mod k, each vehicle keeping its clients in input order) and
    reports, for every vehicle that got a client, the path depot → its
    clients → depot. */
module VrpController {
  import opened Common

  /** A request client: its `id`, its `location`, and the `quantity` of each of
      its `products`, or `None` when `products` is not an array. */
  datatype Client = Client(id: Value, location: Value, products: Option<seq<real>>)

  /** A client with its `totalTonnage` added. */
  datatype LoadedClient = LoadedClient(id: Value, location: Value, totalTonnage: real)

  /** An entry of `clients_served`. */
  datatype Served = Served(id: Value, totalTonnage: real)

  /** A reported route of vehicle `vehicle-<vehicle>`; distance and duration are not modelled. */
  datatype VehicleRoute = VehicleRoute(vehicle: nat, path: seq<Value>, served: seq<Served>)

  /** The body of the request: `clients` is `None` when absent or not an array. */
  datatype OptimizeRequest = OptimizeRequest(departure: Value, clients: Option<seq<Client>>, numVehicles: Value)

  /** The response: a 400 with its message, a 500 with the `catch`'s message (an
      exception was thrown), or the routes (200). */
  datatype Reply = BadRequest(message: string) | ServerError(message: string) | Optimized(routes: seq<VehicleRoute>)

  const DepartureMessage := "Departure location is required and must be a valid array [lat, lng]."
  const ClientsMessage := "At least one client with location and demand is required."
  const VehiclesMessage := "Number of vehicles must be a positive integer."
  const InternalMessage := "Internal server error during VRP optimization."

  /** `Array.from` builds its array with `new Array(length)`, which throws a
      RangeError for a length of 2^32 or more. */
  const ArrayLimit: nat := 0x1_0000_0000

  // ----- Validation and tonnage -----

  /** The first failing check of lines 14-22, or `None` when the request passes them. */
  function Rejection(req: OptimizeRequest): (r: Option<string>)
    ensures r == Some(DepartureMessage) <==> !IsNumberPair(req.departure)
    ensures r == Some(ClientsMessage) <==> IsNumberPair(req.departure) && (req.clients.None? || req.clients.value == [])
    ensures r == Some(VehiclesMessage) <==>
      IsNumberPair(req.departure) && req.clients.Some? && req.clients.value != [] &&
      !(req.numVehicles.Num? && req.numVehicles.n >= 1.0)
    ensures r.None? <==>
      IsNumberPair(req.departure) && req.clients.Some? && req.clients.value != [] &&
      req.numVehicles.Num? && req.numVehicles.n >= 1.0
  {
    if !IsNumberPair(req.departure) then Some(DepartureMessage)
    else if req.clients.None? || req.clients.value == [] then Some(ClientsMessage)
    else if !(req.numVehicles.Num? && req.numVehicles.n >= 1.0) then Some(VehiclesMessage)
    else None
  }

  /** `client.products.reduce((sum, product) => sum + product.quantity, 0)`. */
  function TotalTonnage(quantities: seq<real>): real {
    Sum(quantities)
  }

  /** Every client has a `products` array, so the `reduce` of line 31 does not throw. */
  predicate AllHaveProducts(cs: seq<Client>) {
    forall i :: 0 <= i < |cs| ==> cs[i].products.Some?
  }

  /** Every client has a `location` the path loop can measure from:
      `calculateSimpleDistance` (line 4, called at line 59) reads `p2[0]`, which
      throws for a `null` or absent location. Every dealt client is reached by
      the path loop, so one such client is enough for the 500. */
  predicate AllLocated(cs: seq<Client>) {
    forall i :: 0 <= i < |cs| ==> !cs[i].location.Undefined? && !cs[i].location.Null?
  }

  /** `clientsWithTonnage` (lines 30-36). */
  function WithTonnage(cs: seq<Client>): (r: seq<LoadedClient>)
    requires AllHaveProducts(cs)
    ensures |r| == |cs|
    ensures forall i :: 0 <= i < |cs| ==>
      r[i].id == cs[i].id && r[i].location == cs[i].location && r[i].totalTonnage == Sum(cs[i].products.value)
  {
    seq(|cs|, i requires 0 <= i < |cs| => LoadedClient(cs[i].id, cs[i].location, TotalTonnage(cs[i].products.value)))
  }

  /** A client whose quantities are all non-negative has a non-negative tonnage,
      and the tonnage of two product lists together is the sum of their tonnages. */
  lemma TonnageFacts(a: seq<real>, b: seq<real>)
    requires forall i :: 0 <= i < |a| ==> a[i] >= 0.0
    ensures TotalTonnage(a) >= 0.0
    ensures TotalTonnage(a + b) == TotalTonnage(a) + TotalTonnage(b)
  {
    SumNonNegative(a);
    SumAppend(a, b);
  }

  // ----- Round-robin assignment (lines 39-47) -----

  /** The clients among `cs[..t]` whose position is `v` modulo `k`, in input order:
      what `assignedClients[v]` holds once `t` clients were dealt out. */
  function Bucket<T>(cs: seq<T>, k: nat, v: nat, t: nat): seq<T>
    requires k >= 1 && t <= |cs|
    decreases t
  {
    if t == 0 then []
    else Bucket(cs, k, v, t - 1) + (if (t - 1) % k == v then [cs[t - 1]] else [])
  }

  /** `assignedClients` after the whole list was dealt out. */
  function Buckets<T>(cs: seq<T>, k: nat): (b: seq<seq<T>>)
    requires k >= 1
    ensures |b| == k
  {
    seq(k, v requires 0 <= v < k => Bucket(cs, k, v, |cs|))
  }

  /** The number of positions below `t` that are `v` modulo `k`, for `v < k`. */
  function Slots(t: nat, k: nat, v: nat): nat
    requires k >= 1
  {
    if t <= v then 0 else (t - 1 - v) / k + 1
  }

  /** The `while (clientsWithTonnage.length > 0)` loop: shift the next client off
      the list and push it onto vehicle `clientIdx % num_vehicles`. */
  method AssignRoundRobin<T>(clients: seq<T>, k: nat) returns (dealt: seq<seq<T>>)
    requires k >= 1
    ensures dealt == Buckets(clients, k)
  {
    dealt := seq(k, v => []);
    var pending := clients;
    var clientIdx := 0;
    while |pending| > 0
      invariant 0 <= clientIdx <= |clients| && pending == clients[clientIdx..]
      invariant |dealt| == k
      invariant forall v :: 0 <= v < k ==> dealt[v] == Bucket(clients, k, v, clientIdx)
      decreases |pending|
    {
      var client := pending[0];
      pending := pending[1..];
      var v := clientIdx % k;
      dealt := dealt[v := dealt[v] + [client]];
      clientIdx := clientIdx + 1;
    }
  }

  lemma {:induction false} MulAtLeast(d: int, k: int)
    requires d >= 1 && k >= 1
    ensures d * k >= k
    decreases d
  {
    if d > 1 {
      MulAtLeast(d - 1, k);
      assert d * k == (d - 1) * k + k;
    }
  }

  /** Quotient and remainder are unique: `a == q·k + r` with `0 <= r < k` fixes `a / k` and `a % k`. */
  lemma DivModUnique(a: int, k: int, q: int, r: int)
    requires k >= 1 && 0 <= r < k && a == q * k + r
    ensures a / k == q && a % k == r
  {
    var q0, r0 := a / k, a % k;
    assert a == q0 * k + r0 && 0 <= r0 < k;
    var d := q - q0;
    assert d * k == q * k - q0 * k;
    if d >= 1 {
      MulAtLeast(d, k);
    }
  }

  /** The quotient and remainder of a position by a positive count. */
  lemma DivModBounds(i: nat, k: nat)
    requires k >= 1
    ensures i == (i / k) * k + i % k && 0 <= i % k < k
    ensures 0 <= i / k && i % k <= i
  {
    var q, r := i / k, i % k;
    assert i == q * k + r && 0 <= r < k;
    if q >= 1 {
      MulAtLeast(q, k);
    }
  }

  /** A count of positions that are `v` modulo `k` grows by one with each position that is. */
  lemma SlotsNext(t: nat, k: nat, v: nat)
    requires k >= 1 && v < k
    ensures t % k == v ==> Slots(t + 1, k, v) == Slots(t, k, v) + 1 && t == v + Slots(t, k, v) * k
    ensures t % k != v ==> Slots(t + 1, k, v) == Slots(t, k, v)
  {
    if t < v {
      DivModUnique(t, k, 0, t);
    } else if t == v {
      DivModUnique(v, k, 0, v);
      DivModUnique(0, k, 0, 0);
    } else {
      var q, r := t / k, t % k;
      assert t == q * k + r && 0 <= r < k;
      if r == v {
        DivModUnique(t - v, k, q, 0);
        DivModUnique(t - 1 - v, k, q - 1, k - 1);
      } else if r > v {
        DivModUnique(t - v, k, q, r - v);
        DivModUnique(t - 1 - v, k, q, r - v - 1);
      } else {
        DivModUnique(t - v, k, q - 1, k + r - v);
        DivModUnique(t - 1 - v, k, q - 1, k + r - v - 1);
      }
    }
  }

  /** Vehicle v's clients are those at positions v, v + k, v + 2k, … below t, in
      that order, and every position below t that is v modulo k has its place. */
  lemma {:induction false} BucketShape<T>(cs: seq<T>, k: nat, v: nat, t: nat)
    requires k >= 1 && v < k && t <= |cs|
    ensures |Bucket(cs, k, v, t)| == Slots(t, k, v)
    ensures forall x :: 0 <= x < Slots(t, k, v) ==> v + x * k < t && Bucket(cs, k, v, t)[x] == cs[v + x * k]
    ensures forall i :: 0 <= i < t && i % k == v ==> i / k < Slots(t, k, v)
    decreases t
  {
    if t > 0 {
      BucketShape(cs, k, v, t - 1);
      SlotsNext(t - 1, k, v);
      var b := Bucket(cs, k, v, t - 1);
      if (t - 1) % k == v {
        DivModUnique(t - 1, k, Slots(t - 1, k, v), v);
      }
      forall x | 0 <= x < Slots(t, k, v)
        ensures v + x * k < t && Bucket(cs, k, v, t)[x] == cs[v + x * k]
      {
        if x < |b| {
          assert Bucket(cs, k, v, t)[x] == b[x];
        }
      }
      forall i | 0 <= i < t && i % k == v
        ensures i / k < Slots(t, k, v)
      {
        if i < t - 1 {
          assert i / k < Slots(t - 1, k, v);
        }
      }
    }
  }

  /** The client at input position i is on vehicle i mod k, at place i / k of its list. */
  lemma ClientPlacement<T>(cs: seq<T>, k: nat, i: nat)
    requires k >= 1 && i < |cs|
    ensures i / k < |Buckets(cs, k)[i % k]| && Buckets(cs, k)[i % k][i / k] == cs[i]
  {
    DivModBounds(i, k);
    BucketShape(cs, k, i % k, |cs|);
  }

  /** Each place of a vehicle's list holds exactly one input client, the one at
      position v + x·k; with ClientPlacement this makes the assignment a
      bijection: every input client is assigned exactly once. */
  lemma SlotHoldsOneClient<T>(cs: seq<T>, k: nat, v: nat, x: nat)
    requires k >= 1 && v < k && x < |Buckets(cs, k)[v]|
    ensures v + x * k < |cs| && Buckets(cs, k)[v][x] == cs[v + x * k]
    ensures (v + x * k) % k == v && (v + x * k) / k == x
  {
    BucketShape(cs, k, v, |cs|);
    DivModUnique(v + x * k, k, x, v);
  }

  /** A vehicle gets a client exactly when its number is below the client count. */
  lemma BucketNonEmpty<T>(cs: seq<T>, k: nat, v: nat)
    requires k >= 1 && v < k
    ensures |Buckets(cs, k)[v]| > 0 <==> v < |cs|
  {
    BucketShape(cs, k, v, |cs|);
  }

  // ----- Paths and reported routes (lines 49-81) -----

  /** The locations of a vehicle's clients, in order. */
  function Locations(vcs: seq<LoadedClient>): (r: seq<Value>)
    ensures |r| == |vcs| && forall i :: 0 <= i < |vcs| ==> r[i] == vcs[i].location
  {
    seq(|vcs|, i requires 0 <= i < |vcs| => vcs[i].location)
  }

  /** `vehicleClients.map(c => ({ id: c.id, totalTonnage: c.totalTonnage }))`. */
  function ServedOf(vcs: seq<LoadedClient>): (r: seq<Served>)
    ensures |r| == |vcs| && forall i :: 0 <= i < |vcs| ==> r[i] == Served(vcs[i].id, vcs[i].totalTonnage)
  {
    seq(|vcs|, i requires 0 <= i < |vcs| => Served(vcs[i].id, vcs[i].totalTonnage))
  }

  /** The route of vehicle `number` with the clients `vcs`. */
  function RouteOf(departure: Value, number: nat, vcs: seq<LoadedClient>): VehicleRoute {
    VehicleRoute(number, [departure] + Locations(vcs) + [departure], ServedOf(vcs))
  }

  /** The routes the first `t` vehicles emit: one per vehicle that has a client. */
  function Emitted(departure: Value, dealt: seq<seq<LoadedClient>>, t: nat): seq<VehicleRoute>
    requires t <= |dealt|
    decreases t
  {
    if t == 0 then []
    else Emitted(departure, dealt, t - 1) +
         (if |dealt[t - 1]| > 0 then [RouteOf(departure, t, dealt[t - 1])] else [])
  }

  /** The inner loop of lines 57-65: the path depot → clients → depot. */
  method BuildPath(departure: Value, vcs: seq<LoadedClient>) returns (path: seq<Value>)
    ensures path == [departure] + Locations(vcs) + [departure]
  {
    path := [departure];
    for i := 0 to |vcs|
      invariant path == [departure] + Locations(vcs[..i])
    {
      assert Locations(vcs[..i + 1]) == Locations(vcs[..i]) + [vcs[i].location];
      path := path + [vcs[i].location];
    }
    assert vcs[..|vcs|] == vcs;
    path := path + [departure];
  }

  /** The `for (let i = 0; i < num_vehicles; i++)` loop of lines 49-81. */
  method EmitRoutes(departure: Value, dealt: seq<seq<LoadedClient>>) returns (routes: seq<VehicleRoute>)
    ensures routes == Emitted(departure, dealt, |dealt|)
  {
    routes := [];
    for i := 0 to |dealt|
      invariant routes == Emitted(departure, dealt, i)
    {
      var vehicleClients := dealt[i];
      if |vehicleClients| > 0 {
        var path := BuildPath(departure, vehicleClients);
        routes := routes + [VehicleRoute(i + 1, path, ServedOf(vehicleClients))];
      }
    }
  }

  /** When exactly the first `m` vehicles have clients, they emit the routes, numbered 1 .. m. */
  lemma {:induction false} EmittedPrefix(departure: Value, dealt: seq<seq<LoadedClient>>, m: nat, t: nat)
    requires t <= |dealt|
    requires forall v :: 0 <= v < |dealt| ==> (|dealt[v]| > 0 <==> v < m)
    ensures |Emitted(departure, dealt, t)| == if t < m then t else m
    ensures forall j :: 0 <= j < |Emitted(departure, dealt, t)| ==>
      Emitted(departure, dealt, t)[j] == RouteOf(departure, j + 1, dealt[j])
    decreases t
  {
    if t > 0 {
      EmittedPrefix(departure, dealt, m, t - 1);
    }
  }

  // ----- The handler -----

  /** The vehicle count `k` the handler runs with, `Number(num_vehicles) == k`, or
      `None` when it throws. A count of 2^32 or more makes `Array.from` throw a
      RangeError. With a fractional count `n >= 1` below that, the position
      `floor(n)` is reached (by the deal when there are more clients, by the
      path loop otherwise) and indexes past `assignedClients`, which throws. */
  function WholeCount(n: real): (k: Option<nat>)
    requires n >= 1.0
    ensures k.Some? <==> n.Floor as real == n && n < ArrayLimit as real
    ensures k.Some? ==> 1 <= k.value < ArrayLimit && k.value as real == n
  {
    if n.Floor as real == n && n < ArrayLimit as real then Some(n.Floor as nat) else None
  }

  /** What `optimizeRoutes` answers to a request. */
  function OptimizeRoutesReply(req: OptimizeRequest): Reply {
    match Rejection(req)
    case Some(message) => BadRequest(message)
    case None =>
      var cs := req.clients.value;
      if !AllHaveProducts(cs) then ServerError(InternalMessage)
      else match WholeCount(req.numVehicles.n)
        case None => ServerError(InternalMessage)
        case Some(k) =>
          if !AllLocated(cs) then ServerError(InternalMessage)
          else Optimized(Emitted(req.departure, Buckets(WithTonnage(cs), k), k))
  }

  /** `optimizeRoutes`: validation, tonnage, the deal and the emitted routes. */
  method OptimizeRoutes(req: OptimizeRequest) returns (reply: Reply)
    ensures reply == OptimizeRoutesReply(req)
  {
    var rejection := Rejection(req);
    if rejection.Some? {
      return BadRequest(rejection.value);
    }
    var clients := req.clients.value;
    if !AllHaveProducts(clients) {
      return ServerError(InternalMessage);
    }
    var clientsWithTonnage := WithTonnage(clients);
    var count := WholeCount(req.numVehicles.n);
    if count.None? {
      return ServerError(InternalMessage);
    }
    var dealt := AssignRoundRobin(clientsWithTonnage, count.value);
    if !AllLocated(clients) {
      // the path loop reaches the client and `calculateSimpleDistance` throws
      return ServerError(InternalMessage);
    }
    var routes := EmitRoutes(req.departure, dealt);
    return Optimized(routes);
  }

  /** The routes of a round-robin deal of `cs` over k vehicles: min(|cs|, k)
      of them, route j for vehicle j + 1 with the clients at positions j, j + k,
      j + 2k, … */
  lemma RoundRobinRoutes(departure: Value, cs: seq<LoadedClient>, k: nat, j: nat)
    requires k >= 1
    ensures |Emitted(departure, Buckets(cs, k), k)| == if |cs| < k then |cs| else k
    ensures j < |Emitted(departure, Buckets(cs, k), k)| ==>
      Emitted(departure, Buckets(cs, k), k)[j] == RouteOf(departure, j + 1, Buckets(cs, k)[j])
  {
    var b := Buckets(cs, k);
    var m := if |cs| < k then |cs| else k;
    forall v | 0 <= v < k
      ensures |b[v]| > 0 <==> v < m
    {
      BucketNonEmpty(cs, k, v);
    }
    EmittedPrefix(departure, b, m, k);
  }

  /** A reported route runs from the depot through its clients' locations back to
      the depot, and serves those clients with their tonnage. */
  lemma RouteOfShape(departure: Value, number: nat, vcs: seq<LoadedClient>, x: nat)
    ensures RouteOf(departure, number, vcs).vehicle == number
    ensures |RouteOf(departure, number, vcs).path| == |vcs| + 2
    ensures RouteOf(departure, number, vcs).path[0] == departure
    ensures RouteOf(departure, number, vcs).path[|vcs| + 1] == departure
    ensures x < |vcs| ==>
      RouteOf(departure, number, vcs).path[x + 1] == vcs[x].location &&
      RouteOf(departure, number, vcs).served[x] == Served(vcs[x].id, vcs[x].totalTonnage)
    ensures |RouteOf(departure, number, vcs).served| == |vcs|
  {
  }

  /** A request that passes validation with a whole vehicle count k and clients
      that all have products is answered with the routes of the round-robin deal
      when k is below 2^32 and every client has a location, and with a 500
      otherwise (the RangeError of `Array.from`, or the distance's TypeError). */
  lemma AcceptedRequest(req: OptimizeRequest, k: nat)
    requires Rejection(req).None? && AllHaveProducts(req.clients.value)
    requires req.numVehicles.n == k as real
    ensures k >= 1
    ensures k < ArrayLimit && AllLocated(req.clients.value) ==>
      OptimizeRoutesReply(req) == Optimized(Emitted(req.departure, Buckets(WithTonnage(req.clients.value), k), k))
    ensures k >= ArrayLimit || !AllLocated(req.clients.value) ==> OptimizeRoutesReply(req) == ServerError(InternalMessage)
  {
    assert (k as real).Floor == k;
  }

  /** Route j of a round-robin deal over k vehicles, for vehicle j + 1: its path
      runs from the depot through the locations of the clients at positions j,
      j + k, j + 2k, … back to the depot, and it serves those clients, with
      their tonnage, in that order. */
  lemma DealtRoute(departure: Value, cs: seq<LoadedClient>, k: nat, j: nat, x: nat)
    requires k >= 1 && j < |Emitted(departure, Buckets(cs, k), k)|
    ensures var r := Emitted(departure, Buckets(cs, k), k)[j];
      r.vehicle == j + 1 && |r.served| >= 1 && |r.path| == |r.served| + 2 &&
      r.path[0] == departure && r.path[|r.path| - 1] == departure &&
      (x < |r.served| ==>
        j + x * k < |cs| &&
        r.path[x + 1] == cs[j + x * k].location &&
        r.served[x] == Served(cs[j + x * k].id, cs[j + x * k].totalTonnage))
  {
    RoundRobinRoutes(departure, cs, k, j);
    var vcs := Buckets(cs, k)[j];
    RouteOfShape(departure, j + 1, vcs, x);
    BucketNonEmpty(cs, k, j);
    if x < |vcs| {
      SlotHoldsOneClient(cs, k, j, x);
    }
  }

  /** Every client is served by exactly one route: the client at position i by
      the route of vehicle i mod k + 1, at place i / k; DealtRoute shows each
      place holds the client at one position. */
  lemma EveryClientServedOnce(departure: Value, cs: seq<LoadedClient>, k: nat, i: nat)
    requires k >= 1 && i < |cs|
    ensures i % k < |Emitted(departure, Buckets(cs, k), k)|
    ensures Emitted(departure, Buckets(cs, k), k)[i % k].vehicle == i % k + 1
    ensures i / k < |Emitted(departure, Buckets(cs, k), k)[i % k].served|
    ensures Emitted(departure, Buckets(cs, k), k)[i % k].served[i / k] == Served(cs[i].id, cs[i].totalTonnage)
  {
    DivModBounds(i, k);
    var v := i % k;
    RoundRobinRoutes(departure, cs, k, v);
    ClientPlacement(cs, k, i);
    RouteOfShape(departure, v + 1, Buckets(cs, k)[v], i / k);
  }

  /** A fractional vehicle count, a count of 2^32 or more, a client without a
      products array, or a client without a location, ends in a 500. */
  lemma ServerErrors(req: OptimizeRequest)
    requires Rejection(req).None?
    ensures OptimizeRoutesReply(req) == ServerError(InternalMessage) <==>
      !AllHaveProducts(req.clients.value) || req.numVehicles.n.Floor as real != req.numVehicles.n ||
      req.numVehicles.n >= ArrayLimit as real || !AllLocated(req.clients.value)
  {
  }
}
