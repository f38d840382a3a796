/** python_solver/vrp_solver_script.py: `solve_vrp_with_nearest_neighbor`, the
    only route builder of the backend. Location 0 is the depot; the clients are
    locations 1 .. n - 1 of an n-row distance matrix. Vehicles leave one after
    the other; each goes to the nearest client not yet visited until it has
    served its quota `ceil((n - 1) / num_vehicles)` (the last vehicle has no
    quota), then returns to the depot. Demands and capacities play no part.

    A matrix is a list of rows that need not all have the same length: an entry
    that is missing is the `IndexError` the script catches and skips. */
module NearestNeighbor {
  import opened Common

  const Depot: nat := 0

  /** One entry of `optimized_routes`: vehicle `v<vehicle>`, its stop indices,
      and the distance and duration accumulated along them. */
  datatype SolverRoute = SolverRoute(vehicle: nat, stops: seq<nat>, distance: real, duration: real)

  /** `m[i][j]`, or `None` where the lookup raises `IndexError`. */
  function Lookup(m: seq<seq<real>>, i: nat, j: nat): (r: Option<real>)
    ensures r.Some? <==> i < |m| && j < |m[i]|
  {
    if i < |m| && j < |m[i]| then Some(m[i][j]) else None
  }

  predicate Reachable(dm: seq<seq<real>>, from: nat, c: nat) {
    Lookup(dm, from, c).Some?
  }

  /** Every row is as long as the matrix is high: no lookup between locations fails. */
  predicate Complete(m: seq<seq<real>>) {
    forall i :: 0 <= i < |m| ==> |m[i]| == |m|
  }

  /** The clients `set(range(1, n))`. */
  function Clients(n: nat): (s: set<nat>)
    ensures forall c :: c in s <==> 1 <= c < n
    ensures n >= 1 ==> |s| == n - 1
  {
    if n <= 1 then {} else Clients(n - 1) + {n - 1}
  }

  /** `math.ceil(clients / num_vehicles)` for a positive vehicle count, all clients otherwise. */
  function Quota(clients: nat, numVehicles: int): nat {
    if numVehicles > 0 then (clients + numVehicles - 1) / numVehicles else clients
  }

  /** `c` is the client picked from `candidates` by the scan of lines 40-48: the
      reachable one at the smallest distance from `from`, the first in scanning
      order (ascending index) among equally near ones. */
  predicate IsNearest(dm: seq<seq<real>>, from: nat, candidates: set<nat>, c: nat) {
    c in candidates && Reachable(dm, from, c) &&
    forall d {:trigger Reachable(dm, from, d)} :: d in candidates && Reachable(dm, from, d) ==>
      Lookup(dm, from, c).value <= Lookup(dm, from, d).value &&
      (d < c ==> Lookup(dm, from, c).value < Lookup(dm, from, d).value)
  }

  /** No candidate can be looked up from `from`: the scan finds no client. */
  predicate NoneReachable(dm: seq<seq<real>>, from: nat, candidates: set<nat>) {
    forall d {:trigger Reachable(dm, from, d)} :: d in candidates ==> !Reachable(dm, from, d)
  }

  // ----- One route: a stop list [0, c1, …, cm] while it is built, [0, c1, …, cm, 0] once done -----

  /** The clients `stops[1..t]`, visited after leaving the depot `stops[0]`. */
  function Visited(stops: seq<nat>, t: nat): set<nat>
    requires t < |stops|
    decreases t
  {
    if t == 0 then {} else Visited(stops, t - 1) + {stops[t]}
  }

  /** Each of `stops[1..t]` is the nearest client still unvisited, seen from the stop before it. */
  predicate GreedyStops(dm: seq<seq<real>>, before: set<nat>, stops: seq<nat>, t: nat)
    requires t < |stops|
    decreases t
  {
    t == 0 ||
    (GreedyStops(dm, before, stops, t - 1) &&
     IsNearest(dm, stops[t - 1], before - Visited(stops, t - 1), stops[t]))
  }

  /** The inner `while` stopped after serving `stops[1..t]`, for one of its
      three reasons: no client is left, a vehicle other than the last reached
      its quota, or no client left can be looked up from where the vehicle is
      (the first reason is the case of the third where nothing is left). */
  predicate StoppedRightly(dm: seq<seq<real>>, before: set<nat>, stops: seq<nat>, t: nat, quota: nat, isLast: bool)
    requires t < |stops|
  {
    (!isLast && t >= quota) || NoneReachable(dm, stops[t], before - Visited(stops, t))
  }

  /** What a leg adds to `current_distance`: the entry, or nothing where it is missing. */
  function DistanceLeg(dm: seq<seq<real>>, a: nat, b: nat): real {
    OrZero(Lookup(dm, a, b))
  }

  /** What a leg adds to `current_duration`: the duration entry, provided the distance
      entry (added first, in the same `try`) and the duration entry both exist. */
  function DurationLeg(dm: seq<seq<real>>, du: seq<seq<real>>, a: nat, b: nat): real {
    if Lookup(dm, a, b).Some? then OrZero(Lookup(du, a, b)) else 0.0
  }

  /** The distance along the first `t` legs of `path`. */
  function LegsDistance(dm: seq<seq<real>>, path: seq<nat>, t: nat): real
    requires t < |path|
    decreases t
  {
    if t == 0 then 0.0 else LegsDistance(dm, path, t - 1) + DistanceLeg(dm, path[t - 1], path[t])
  }

  /** The duration along the first `t` legs of `path`. */
  function LegsDuration(dm: seq<seq<real>>, du: seq<seq<real>>, path: seq<nat>, t: nat): real
    requires t < |path|
    decreases t
  {
    if t == 0 then 0.0 else LegsDuration(dm, du, path, t - 1) + DurationLeg(dm, du, path[t - 1], path[t])
  }

  function PathDistance(dm: seq<seq<real>>, path: seq<nat>): real {
    if path == [] then 0.0 else LegsDistance(dm, path, |path| - 1)
  }

  function PathDuration(dm: seq<seq<real>>, du: seq<seq<real>>, path: seq<nat>): real {
    if path == [] then 0.0 else LegsDuration(dm, du, path, |path| - 1)
  }

  /** The distance reported for a stop list: nothing for `[0, 0]`, every leg otherwise. */
  function RouteDistance(dm: seq<seq<real>>, stops: seq<nat>): real {
    if |stops| <= 2 then 0.0 else PathDistance(dm, stops)
  }

  function RouteDuration(dm: seq<seq<real>>, du: seq<seq<real>>, stops: seq<nat>): real {
    if |stops| <= 2 then 0.0 else PathDuration(dm, du, stops)
  }

  /** The clients a finished route serves: everything between its two depot visits. */
  function RouteClients(r: SolverRoute): set<nat> {
    if |r.stops| >= 2 then Visited(r.stops, |r.stops| - 2) else {}
  }

  /** Everything the script promises about the route of vehicle `number`, which
      starts out with the unvisited clients `before`. */
  predicate GreedyRoute(dm: seq<seq<real>>, du: seq<seq<real>>, before: set<nat>, quota: nat, isLast: bool,
                        number: nat, r: SolverRoute) {
    r.vehicle == number &&
    |r.stops| >= 2 && r.stops[0] == Depot && r.stops[|r.stops| - 1] == Depot &&
    GreedyStops(dm, before, r.stops, |r.stops| - 2) &&
    (!isLast ==> |r.stops| - 2 <= quota) &&
    StoppedRightly(dm, before, r.stops, |r.stops| - 2, quota, isLast) &&
    r.distance == RouteDistance(dm, r.stops) &&
    r.duration == RouteDuration(dm, du, r.stops)
  }

  // ----- The list of routes -----

  /** `unvisited_clients` once the first `t` routes are built: the clients of
      an n-row matrix, with each client a route serves removed. */
  function Left(n: nat, routes: seq<SolverRoute>, t: nat): set<nat>
    requires t <= |routes|
    decreases t
  {
    if t == 0 then Clients(n) else Left(n, routes, t - 1) - RouteClients(routes[t - 1])
  }

  /** The clients the first `t` routes serve. */
  function AllServed(routes: seq<SolverRoute>, t: nat): set<nat>
    requires t <= |routes|
    decreases t
  {
    if t == 0 then {} else AllServed(routes, t - 1) + RouteClients(routes[t - 1])
  }

  /** The quota of every vehicle but the last, for the clients of an n-row matrix. */
  function RouteQuota(n: nat, numVehicles: int): nat {
    Quota(if n == 0 then 0 else n - 1, numVehicles)
  }

  /** Route j + 1 was built greedily from the clients its predecessors left,
      and some were left when it started. */
  predicate RouteOk(dm: seq<seq<real>>, du: seq<seq<real>>, numVehicles: int, routes: seq<SolverRoute>, j: nat)
    requires j < |routes|
  {
    Left(|dm|, routes, j) != {} &&
    GreedyRoute(dm, du, Left(|dm|, routes, j), RouteQuota(|dm|, numVehicles), j == numVehicles - 1, j + 1, routes[j])
  }

  /** Each of the first `t` routes is as `RouteOk` says. */
  predicate RoutesSoFar(dm: seq<seq<real>>, du: seq<seq<real>>, numVehicles: int, routes: seq<SolverRoute>, t: nat)
    requires t <= |routes|
    decreases t
  {
    t == 0 || (RoutesSoFar(dm, du, numVehicles, routes, t - 1) && RouteOk(dm, du, numVehicles, routes, t - 1))
  }

  /** The result of the script for an n-row matrix and `numVehicles` vehicles:
      at most one route per vehicle, numbered from 1; each route built greedily
      from the clients its predecessors left; a route only while clients remain;
      and the vehicles run out before the clients do, or no client is left. */
  predicate NearestNeighborRoutes(dm: seq<seq<real>>, du: seq<seq<real>>, numVehicles: int, routes: seq<SolverRoute>) {
    |routes| <= (if numVehicles > 0 then numVehicles else 0) &&
    RoutesSoFar(dm, du, numVehicles, routes, |routes|) &&
    (|routes| < numVehicles ==> Left(|dm|, routes, |routes|) == {})
  }

  // ----- The script -----

  /** The scan `for client_idx in unvisited_clients` (lines 40-51). A set of small
      integers iterates in ascending order, so the scan runs over 1 .. n - 1 and
      visits the members. */
  method Nearest(dm: seq<seq<real>>, from: nat, unvisited: set<nat>, n: nat) returns (nearest: int)
    requires forall c :: c in unvisited ==> 1 <= c < n
    ensures nearest == -1 <==> NoneReachable(dm, from, unvisited)
    ensures nearest != -1 ==> nearest >= 0 && IsNearest(dm, from, unvisited, nearest)
  {
    nearest := -1;
    var minDistance: real := 0.0; // math.inf while nearest == -1
    var c: nat := 1;
    while c < n
      invariant 1 <= c <= if n < 1 then 1 else n
      invariant nearest == -1 ==> forall d :: d in unvisited && d < c ==> !Reachable(dm, from, d)
      invariant nearest != -1 ==>
        0 <= nearest < c && nearest in unvisited && Reachable(dm, from, nearest) &&
        minDistance == Lookup(dm, from, nearest).value &&
        forall d :: d in unvisited && d < c && Reachable(dm, from, d) ==>
          minDistance <= Lookup(dm, from, d).value &&
          (d < nearest ==> minDistance < Lookup(dm, from, d).value)
    {
      if c in unvisited {
        var entry := Lookup(dm, from, c);
        if entry.Some? {
          var dist := entry.value;
          if nearest == -1 || dist < minDistance {
            minDistance := dist;
            nearest := c;
          }
        }
      }
      c := c + 1;
    }
  }

  /** Extending a stop list leaves what its first stops visited, chose and cost as it was. */
  lemma {:induction false} StopsExtended(dm: seq<seq<real>>, du: seq<seq<real>>, before: set<nat>,
                                         stops: seq<nat>, x: nat, t: nat)
    requires t < |stops|
    ensures Visited(stops + [x], t) == Visited(stops, t)
    ensures GreedyStops(dm, before, stops + [x], t) == GreedyStops(dm, before, stops, t)
    ensures LegsDistance(dm, stops + [x], t) == LegsDistance(dm, stops, t)
    ensures LegsDuration(dm, du, stops + [x], t) == LegsDuration(dm, du, stops, t)
    decreases t
  {
    if t > 0 {
      StopsExtended(dm, du, before, stops, x, t - 1);
      assert (stops + [x])[t] == stops[t] && (stops + [x])[t - 1] == stops[t - 1];
    }
  }

  /** The variables of the inner `while` (lines 29-66) for the stop list
      `stops`: it starts at the depot, `current` is its last stop, the clients
      left are those not yet visited, its clients were chosen greedily within
      the quota, and the distance and duration are those of its legs. */
  predicate RouteSoFar(dm: seq<seq<real>>, du: seq<seq<real>>, before: set<nat>, quota: nat, isLast: bool,
                       stops: seq<nat>, current: nat, left: set<nat>, distance: real, duration: real) {
    |stops| >= 1 && stops[0] == Depot && current == stops[|stops| - 1] &&
    (|stops| > 1 ==> current >= 1) &&
    left == before - Visited(stops, |stops| - 1) &&
    GreedyStops(dm, before, stops, |stops| - 1) &&
    (!isLast ==> |stops| - 1 <= quota) &&
    distance == PathDistance(dm, stops) &&
    duration == PathDuration(dm, du, stops)
  }

  /** Extending the stop list by the nearest client left: one more visited
      client, one more greedy choice, one more leg. */
  lemma StopsStep(dm: seq<seq<real>>, du: seq<seq<real>>, before: set<nat>, stops: seq<nat>, c: nat)
    requires |stops| >= 1
    requires GreedyStops(dm, before, stops, |stops| - 1)
    requires IsNearest(dm, stops[|stops| - 1], before - Visited(stops, |stops| - 1), c)
    ensures Visited(stops + [c], |stops|) == Visited(stops, |stops| - 1) + {c}
    ensures GreedyStops(dm, before, stops + [c], |stops|)
    ensures PathDistance(dm, stops + [c]) == PathDistance(dm, stops) + DistanceLeg(dm, stops[|stops| - 1], c)
    ensures PathDuration(dm, du, stops + [c]) == PathDuration(dm, du, stops) + DurationLeg(dm, du, stops[|stops| - 1], c)
  {
    var t := |stops| - 1;
    StopsExtended(dm, du, before, stops, c, t);
    assert (stops + [c])[t + 1] == c && (stops + [c])[t] == stops[t];
  }

  /** Moving to the nearest client left keeps the variables of the inner `while` in step. */
  lemma RouteSoFarStep(dm: seq<seq<real>>, du: seq<seq<real>>, before: set<nat>, quota: nat, isLast: bool,
                       stops: seq<nat>, current: nat, left: set<nat>, distance: real, duration: real,
                       c: nat, distance': real, duration': real)
    requires RouteSoFar(dm, du, before, quota, isLast, stops, current, left, distance, duration)
    requires isLast || |stops| - 1 < quota
    requires IsNearest(dm, current, left, c) && c >= 1
    requires distance' == distance + DistanceLeg(dm, current, c)
    requires duration' == duration + DurationLeg(dm, du, current, c)
    ensures RouteSoFar(dm, du, before, quota, isLast, stops + [c], c, left - {c}, distance', duration')
  {
    var s := stops + [c];
    StopsStep(dm, du, before, stops, c);
    assert s[|s| - 1] == c && s[0] == Depot;
    assert left - {c} == before - Visited(s, |s| - 1);
    assert GreedyStops(dm, before, s, |s| - 1);
    assert distance' == PathDistance(dm, s) && duration' == PathDuration(dm, du, s);
  }

  /** One pass of the inner `while` (lines 38-66): move to the nearest client
      left, adding the leg to it to the distance and duration, or report that
      none can be looked up (`nearest_client_idx == -1`, line 66). */
  method ServeNext(dm: seq<seq<real>>, du: seq<seq<real>>, n: nat, unvisited: set<nat>, quota: nat, isLast: bool,
                   stops: seq<nat>, current: nat, left: set<nat>, distance: real, duration: real)
    returns (found: bool, stops': seq<nat>, current': nat, left': set<nat>, distance': real, duration': real)
    requires forall c :: c in unvisited ==> 1 <= c < n
    requires RouteSoFar(dm, du, unvisited, quota, isLast, stops, current, left, distance, duration)
    requires isLast || |stops| - 1 < quota
    ensures !found <==> NoneReachable(dm, current, left)
    ensures found ==>
      |stops'| == |stops| + 1 && |left'| < |left| &&
      RouteSoFar(dm, du, unvisited, quota, isLast, stops', current', left', distance', duration')
  {
    var nearest := Nearest(dm, current, left, n);
    found := nearest != -1;
    stops', current', left', distance', duration' := stops, current, left, distance, duration;
    if found {
      var c: nat := nearest;
      distance' := distance + Lookup(dm, current, c).value;
      var back := Lookup(du, current, c);
      if back.Some? {
        duration' := duration + back.value;
      }
      RouteSoFarStep(dm, du, unvisited, quota, isLast, stops, current, left, distance, duration, c, distance', duration');
      stops', current', left' := stops + [c], c, left - {c};
      assert |left'| < |left| by {
        assert left == left' + {c};
      }
    }
  }

  /** The inner `while` of lines 37-66: serve the nearest unvisited client
      until none is left, the quota is reached (except for the last vehicle) or
      no client left can be looked up. */
  method ServeClients(dm: seq<seq<real>>, du: seq<seq<real>>, n: nat, unvisited: set<nat>, quota: nat, isLast: bool)
    returns (stops: seq<nat>, current: nat, distance: real, duration: real, left: set<nat>)
    requires forall c :: c in unvisited ==> 1 <= c < n
    ensures RouteSoFar(dm, du, unvisited, quota, isLast, stops, current, left, distance, duration)
    ensures StoppedRightly(dm, unvisited, stops, |stops| - 1, quota, isLast)
  {
    stops, current := [Depot], Depot;
    distance, duration := 0.0, 0.0;
    var served: nat := 0;
    left := unvisited;
    while left != {} && (served < quota || isLast)
      invariant served == |stops| - 1
      invariant RouteSoFar(dm, du, unvisited, quota, isLast, stops, current, left, distance, duration)
      decreases |left|
    {
      var found, stops', current', left', distance', duration' :=
        ServeNext(dm, du, n, unvisited, quota, isLast, stops, current, left, distance, duration);
      if !found {
        break;
      }
      stops, current, left, distance, duration := stops', current', left', distance', duration';
      served := served + 1;
    }
  }

  /** The route reported once the inner loop has stopped (lines 68-88). */
  lemma FinishRoute(dm: seq<seq<real>>, du: seq<seq<real>>, before: set<nat>, quota: nat, isLast: bool,
                    stops: seq<nat>, current: nat, left: set<nat>, distance: real, duration: real,
                    number: nat, stops': seq<nat>, distance': real, duration': real)
    requires RouteSoFar(dm, du, before, quota, isLast, stops, current, left, distance, duration)
    requires StoppedRightly(dm, before, stops, |stops| - 1, quota, isLast)
    requires |stops| == 1 ==> stops' == [Depot, Depot] && distance' == distance && duration' == duration
    requires |stops| > 1 ==>
      stops' == stops + [Depot] &&
      distance' == distance + DistanceLeg(dm, current, Depot) &&
      duration' == duration + DurationLeg(dm, du, current, Depot)
    ensures GreedyRoute(dm, du, before, quota, isLast, number, SolverRoute(number, stops', distance', duration'))
    ensures left == before - RouteClients(SolverRoute(number, stops', distance', duration'))
  {
    StopsExtended(dm, du, before, stops, Depot, |stops| - 1);
    assert stops'[|stops| - 1] == current;
  }

  /** One iteration of `for vehicle_id in range(num_vehicles)` (lines 25-88):
      the route of vehicle `number`, and the clients it leaves unvisited. */
  method BuildRoute(dm: seq<seq<real>>, du: seq<seq<real>>, n: nat, unvisited: set<nat>, quota: nat,
                    isLast: bool, number: nat) returns (route: SolverRoute, left: set<nat>)
    requires forall c :: c in unvisited ==> 1 <= c < n
    ensures GreedyRoute(dm, du, unvisited, quota, isLast, number, route)
    ensures left == unvisited - RouteClients(route)
  {
    var stops, current, distance, duration, rest := ServeClients(dm, du, n, unvisited, quota, isLast);
    left := rest;
    ghost var stops0, distance0, duration0 := stops, distance, duration;
    if stops[|stops| - 1] != Depot {
      var there := Lookup(dm, current, Depot);
      if there.Some? {
        distance := distance + there.value;
        var back := Lookup(du, current, Depot);
        if back.Some? {
          duration := duration + back.value;
        }
      }
      stops := stops + [Depot];
    }
    if |stops| == 1 {
      stops := stops + [Depot];
    }
    route := SolverRoute(number, stops, distance, duration);
    FinishRoute(dm, du, unvisited, quota, isLast, stops0, current, left, distance0, duration0, number, stops, distance, duration);
  }

  /** Appending a route leaves the clients the routes before it left as they were. */
  lemma {:induction false} LeftPrefix(n: nat, routes: seq<SolverRoute>, r: SolverRoute, t: nat)
    requires t <= |routes|
    ensures Left(n, routes + [r], t) == Left(n, routes, t)
    decreases t
  {
    if t > 0 {
      LeftPrefix(n, routes, r, t - 1);
      assert (routes + [r])[t - 1] == routes[t - 1];
    }
  }

  /** Appending a route leaves the routes before it as they were. */
  lemma {:induction false} RoutesSoFarPrefix(dm: seq<seq<real>>, du: seq<seq<real>>, numVehicles: int,
                                             routes: seq<SolverRoute>, r: SolverRoute, t: nat)
    requires t <= |routes|
    requires RoutesSoFar(dm, du, numVehicles, routes, t)
    ensures RoutesSoFar(dm, du, numVehicles, routes + [r], t)
    decreases t
  {
    if t > 0 {
      RoutesSoFarPrefix(dm, du, numVehicles, routes, r, t - 1);
      LeftPrefix(|dm|, routes, r, t - 1);
      assert (routes + [r])[t - 1] == routes[t - 1];
    }
  }

  /** Adding the route of the next vehicle, built from the clients still unvisited. */
  lemma RoutesSoFarStep(dm: seq<seq<real>>, du: seq<seq<real>>, numVehicles: int, routes: seq<SolverRoute>, r: SolverRoute)
    requires RoutesSoFar(dm, du, numVehicles, routes, |routes|)
    requires Left(|dm|, routes, |routes|) != {}
    requires GreedyRoute(dm, du, Left(|dm|, routes, |routes|), RouteQuota(|dm|, numVehicles),
                         |routes| == numVehicles - 1, |routes| + 1, r)
    ensures RoutesSoFar(dm, du, numVehicles, routes + [r], |routes| + 1)
    ensures Left(|dm|, routes + [r], |routes| + 1) == Left(|dm|, routes, |routes|) - RouteClients(r)
  {
    RoutesSoFarPrefix(dm, du, numVehicles, routes, r, |routes|);
    LeftPrefix(|dm|, routes, r, |routes|);
    assert (routes + [r])[|routes|] == r;
  }

  /** The clients left are clients. */
  lemma {:induction false} LeftAreClients(n: nat, routes: seq<SolverRoute>, t: nat)
    requires t <= |routes|
    ensures forall c :: c in Left(n, routes, t) ==> 1 <= c < n
    decreases t
  {
    if t > 0 {
      LeftAreClients(n, routes, t - 1);
    }
  }

  /** `solve_vrp_with_nearest_neighbor` on the matrices and the vehicle count of its input. */
  method SolveVrpWithNearestNeighbor(dm: seq<seq<real>>, du: seq<seq<real>>, numVehicles: int)
    returns (routes: seq<SolverRoute>)
    ensures |dm| == 0 ==> routes == []
    ensures NearestNeighborRoutes(dm, du, numVehicles, routes)
  {
    var n := |dm|;
    if n == 0 {
      return [];
    }
    var unvisited := Clients(n);
    var quota := Quota(|unvisited|, numVehicles);
    assert quota == RouteQuota(n, numVehicles);
    routes := [];
    var vehicle := 0;
    while vehicle < numVehicles && unvisited != {}
      invariant 0 <= vehicle && |routes| == vehicle
      invariant numVehicles > 0 ==> vehicle <= numVehicles
      invariant numVehicles <= 0 ==> vehicle == 0
      invariant unvisited == Left(n, routes, |routes|)
      invariant RoutesSoFar(dm, du, numVehicles, routes, |routes|)
    {
      LeftAreClients(n, routes, |routes|);
      var route, left := BuildRoute(dm, du, n, unvisited, quota, vehicle == numVehicles - 1, vehicle + 1);
      RoutesSoFarStep(dm, du, numVehicles, routes, route);
      routes := routes + [route];
      unvisited := left;
      vehicle := vehicle + 1;
    }
  }

  // ----- What follows from the specification -----

  /** Route j + 1 was built from the clients vehicles 1 .. j left. */
  lemma {:induction false} RouteAt(dm: seq<seq<real>>, du: seq<seq<real>>, numVehicles: int,
                                   routes: seq<SolverRoute>, t: nat, j: nat)
    requires t <= |routes| && j < t
    requires RoutesSoFar(dm, du, numVehicles, routes, t)
    ensures RouteOk(dm, du, numVehicles, routes, j)
    decreases t
  {
    if j < t - 1 {
      RouteAt(dm, du, numVehicles, routes, t - 1, j);
    }
  }

  /** What each reported route is: vehicle `v<j + 1>`, a stop list from the
      depot back to the depot, at most the quota of clients unless it is the
      last vehicle's, and the summed legs as distance and duration. */
  lemma RouteShape(dm: seq<seq<real>>, du: seq<seq<real>>, numVehicles: int, routes: seq<SolverRoute>, j: nat)
    requires NearestNeighborRoutes(dm, du, numVehicles, routes)
    requires j < |routes|
    ensures routes[j].vehicle == j + 1
    ensures |routes[j].stops| >= 2 && routes[j].stops[0] == Depot && routes[j].stops[|routes[j].stops| - 1] == Depot
    ensures j != numVehicles - 1 ==> |routes[j].stops| - 2 <= RouteQuota(|dm|, numVehicles)
    ensures routes[j].distance == RouteDistance(dm, routes[j].stops)
    ensures routes[j].duration == RouteDuration(dm, du, routes[j].stops)
  {
    RouteAt(dm, du, numVehicles, routes, |routes|, j);
  }

  /** Visited collects exactly the stops it ranges over. */
  lemma {:induction false} VisitedMembers(stops: seq<nat>, t: nat)
    requires t < |stops|
    ensures forall i :: 1 <= i <= t ==> stops[i] in Visited(stops, t)
    ensures forall c :: c in Visited(stops, t) ==> exists i :: 1 <= i <= t && stops[i] == c
    decreases t
  {
    if t > 0 {
      VisitedMembers(stops, t - 1);
    }
  }

  /** The clients of a greedy stop list are distinct and were unvisited. */
  lemma {:induction false} GreedyStopsDistinct(dm: seq<seq<real>>, before: set<nat>, stops: seq<nat>, t: nat)
    requires t < |stops|
    requires GreedyStops(dm, before, stops, t)
    ensures forall i, j :: 1 <= i < j <= t ==> stops[i] != stops[j]
    ensures Visited(stops, t) <= before
    decreases t
  {
    if t > 0 {
      GreedyStopsDistinct(dm, before, stops, t - 1);
      VisitedMembers(stops, t - 1);
      assert stops[t] !in Visited(stops, t - 1);
    }
  }

  /** A route whose clients were chosen greedily from `before` serves no client twice, and only clients of `before`. */
  lemma RouteClientsDistinct(dm: seq<seq<real>>, before: set<nat>, r: SolverRoute)
    requires |r.stops| >= 2 && GreedyStops(dm, before, r.stops, |r.stops| - 2)
    ensures forall a, b :: 1 <= a < b <= |r.stops| - 2 ==> r.stops[a] != r.stops[b]
    ensures RouteClients(r) <= before
  {
    GreedyStopsDistinct(dm, before, r.stops, |r.stops| - 2);
  }

  /** No client appears twice in a route, and a route serves only clients left by the routes before it. */
  lemma NoClientTwiceInRoute(dm: seq<seq<real>>, du: seq<seq<real>>, numVehicles: int, routes: seq<SolverRoute>, j: nat)
    requires NearestNeighborRoutes(dm, du, numVehicles, routes)
    requires j < |routes|
    ensures forall a, b :: 1 <= a < b <= |routes[j].stops| - 2 ==> routes[j].stops[a] != routes[j].stops[b]
    ensures RouteClients(routes[j]) <= Left(|dm|, routes, j)
  {
    RouteAt(dm, du, numVehicles, routes, |routes|, j);
    RouteClientsDistinct(dm, Left(|dm|, routes, j), routes[j]);
  }

  /** The clients left only shrink as routes are added, and lose what each route serves. */
  lemma {:induction false} LeftShrinks(n: nat, routes: seq<SolverRoute>, i: nat, j: nat)
    requires i < j <= |routes|
    ensures Left(n, routes, j) <= Left(n, routes, i) - RouteClients(routes[i])
    decreases j
  {
    if i < j - 1 {
      LeftShrinks(n, routes, i, j - 1);
    }
  }

  /** No client appears in two different routes. */
  lemma NoClientInTwoRoutes(dm: seq<seq<real>>, du: seq<seq<real>>, numVehicles: int, routes: seq<SolverRoute>,
                            i: nat, j: nat)
    requires NearestNeighborRoutes(dm, du, numVehicles, routes)
    requires i < j < |routes|
    ensures RouteClients(routes[i]) !! RouteClients(routes[j])
  {
    NoClientTwiceInRoute(dm, du, numVehicles, routes, j);
    LeftShrinks(|dm|, routes, i, j);
  }

  /** The clients left are the clients that no route has served. */
  lemma {:induction false} LeftIsUnserved(n: nat, routes: seq<SolverRoute>, t: nat)
    requires t <= |routes|
    ensures Left(n, routes, t) == Clients(n) - AllServed(routes, t)
    decreases t
  {
    if t > 0 {
      LeftIsUnserved(n, routes, t - 1);
    }
  }

  /** Only clients are served. */
  lemma {:induction false} ServedAreClients(dm: seq<seq<real>>, du: seq<seq<real>>, numVehicles: int,
                                            routes: seq<SolverRoute>, t: nat)
    requires t <= |routes|
    requires RoutesSoFar(dm, du, numVehicles, routes, t)
    ensures AllServed(routes, t) <= Clients(|dm|)
    decreases t
  {
    if t > 0 {
      ServedAreClients(dm, du, numVehicles, routes, t - 1);
      var r := routes[t - 1];
      GreedyStopsDistinct(dm, Left(|dm|, routes, t - 1), r.stops, |r.stops| - 2);
      LeftAreClients(|dm|, routes, t - 1);
    }
  }

  /** A client left over cannot be unreachable from a stop when the matrix is complete. */
  lemma CompleteReaches(dm: seq<seq<real>>, stops: seq<nat>, t: nat, d: nat)
    requires Complete(dm) && t < |stops| && stops[t] < |dm| && d < |dm|
    ensures Reachable(dm, stops[t], d)
  {
  }

  /** The last vehicle, on a complete matrix, stops only once no client is left. */
  lemma LastRouteLeavesNothing(dm: seq<seq<real>>, before: set<nat>, stops: seq<nat>, t: nat, quota: nat)
    requires Complete(dm) && forall c :: c in before ==> c < |dm|
    requires t < |stops| && stops[0] == Depot && |dm| > 0
    requires GreedyStops(dm, before, stops, t)
    requires StoppedRightly(dm, before, stops, t, quota, true)
    ensures before <= Visited(stops, t)
  {
    GreedyStopsDistinct(dm, before, stops, t);
    VisitedMembers(stops, t);
    assert stops[t] < |dm|;
    forall d | d in before
      ensures d in Visited(stops, t)
    {
      if d !in Visited(stops, t) {
        CompleteReaches(dm, stops, t, d);
        assert false;
      }
    }
  }

  /** When every vehicle has left, on a complete matrix, no client is left. */
  lemma LastVehicleServesRest(dm: seq<seq<real>>, du: seq<seq<real>>, numVehicles: int, routes: seq<SolverRoute>)
    requires Complete(dm) && numVehicles >= 1
    requires |routes| == numVehicles && RoutesSoFar(dm, du, numVehicles, routes, |routes|)
    ensures Left(|dm|, routes, |routes|) == {}
  {
    var k := |routes| - 1;
    var r := routes[k];
    var before := Left(|dm|, routes, k);
    LeftAreClients(|dm|, routes, k);
    var c :| c in before;
    LastRouteLeavesNothing(dm, before, r.stops, |r.stops| - 2, RouteQuota(|dm|, numVehicles));
  }

  /** With at least one vehicle and a complete matrix every client is served. */
  lemma EveryClientServed(dm: seq<seq<real>>, du: seq<seq<real>>, numVehicles: int, routes: seq<SolverRoute>)
    requires Complete(dm) && numVehicles >= 1
    requires NearestNeighborRoutes(dm, du, numVehicles, routes)
    ensures Left(|dm|, routes, |routes|) == {}
    ensures AllServed(routes, |routes|) == Clients(|dm|)
  {
    if |routes| == numVehicles {
      LastVehicleServesRest(dm, du, numVehicles, routes);
    }
    ServedAreClients(dm, du, numVehicles, routes, |routes|);
    LeftIsUnserved(|dm|, routes, |routes|);
  }

  /** Every vehicle but the last may serve at least one client when there is one. */
  lemma QuotaPositive(clients: nat, numVehicles: int)
    requires clients >= 1
    ensures Quota(clients, numVehicles) >= 1
  {
    if numVehicles > 0 {
      assert clients + numVehicles - 1 >= numVehicles;
    }
  }

  /** A route started with clients left and a quota to fill, on a complete
      matrix, serves at least one of them. */
  lemma RouteServesSomeone(dm: seq<seq<real>>, du: seq<seq<real>>, before: set<nat>, quota: nat, isLast: bool,
                           number: nat, r: SolverRoute)
    requires Complete(dm) && before != {} && forall c :: c in before ==> c < |dm|
    requires quota >= 1 || isLast
    requires GreedyRoute(dm, du, before, quota, isLast, number, r)
    ensures |r.stops| >= 3
  {
    if |r.stops| < 3 {
      var d :| d in before;
      assert Reachable(dm, Depot, d);
      assert false;
    }
  }

  /** With a complete matrix no vehicle comes back empty: every route is `[0, c, …, 0]`. */
  lemma NoEmptyRouteWhenComplete(dm: seq<seq<real>>, du: seq<seq<real>>, numVehicles: int, routes: seq<SolverRoute>, j: nat)
    requires Complete(dm)
    requires NearestNeighborRoutes(dm, du, numVehicles, routes)
    requires j < |routes|
    ensures |routes[j].stops| >= 3
  {
    RouteAt(dm, du, numVehicles, routes, |routes|, j);
    var before := Left(|dm|, routes, j);
    LeftAreClients(|dm|, routes, j);
    var d :| d in before;
    QuotaPositive(|dm| - 1, numVehicles);
    RouteServesSomeone(dm, du, before, RouteQuota(|dm|, numVehicles), j == numVehicles - 1, j + 1, routes[j]);
  }

  /** Vehicles after the one that served the last client produce no route. */
  lemma NoRouteAfterLastClient(dm: seq<seq<real>>, du: seq<seq<real>>, numVehicles: int, routes: seq<SolverRoute>, j: nat)
    requires NearestNeighborRoutes(dm, du, numVehicles, routes)
    requires j < |routes| && Left(|dm|, routes, j + 1) == {}
    ensures |routes| == j + 1
  {
    if |routes| > j + 1 {
      RouteAt(dm, du, numVehicles, routes, |routes|, j + 1);
      assert false;
    }
  }
}
