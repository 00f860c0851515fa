/** Routes and solutions (structs Ruta and Solucion), the figures cached in them,
    and the invariants that tie those figures to the node sequences. */
module Routes {
  import opened Instance

  /** One vehicle's route: node ids from depot to depot, and four cached
      figures: used load, delivered (linehaul) load, picked (backhaul) load, cost. */
  datatype Route = Route(nodes: seq<int>, used: int, delivered: int, picked: int, cost: int)

  /** One route per vehicle and the cached total cost. */
  datatype Solution = Solution(routes: seq<Route>, cost: int)

  /** The route a freshly resized vector holds: no nodes, every figure zero. */
  const EmptyRoute := Route([], 0, 0, 0, 0)

  // ---------------------------------------------------------------- cost

  /** Sum of the distances between consecutive nodes; 0 with fewer than two nodes. */
  function PathCost(s: seq<int>, dist: Distance): nat {
    if |s| < 2 then 0
    else PathCost(s[..|s| - 1], dist) + dist(s[|s| - 2], s[|s| - 1])
  }

  /** The cost of a path is additive over a split at any inner node: the two
      halves share the node at the split. */
  lemma {:induction false} PathCostSplit(s: seq<int>, k: nat, dist: Distance)
    requires k < |s|
    ensures PathCost(s, dist) == PathCost(s[..k + 1], dist) + PathCost(s[k..], dist)
    decreases |s|
  {
    if k == |s| - 1 {
      assert s[..k + 1] == s;
    } else {
      var t := s[..|s| - 1];
      PathCostSplit(t, k, dist);
      assert t[..k + 1] == s[..k + 1];
      var u := s[k..];
      assert |u| == |s| - k >= 2;
      assert u[..|u| - 1] == t[k..] by {
        forall j | 0 <= j < |u| - 1 ensures u[..|u| - 1][j] == t[k..][j] {
          assert u[j] == s[k + j] == t[k + j];
        }
      }
      assert u[|u| - 2] == s[|s| - 2] && u[|u| - 1] == s[|s| - 1];
    }
  }

  /** The sum of the cached route costs, in route order. */
  function SumCosts(rs: seq<Route>): int {
    if |rs| == 0 then 0 else SumCosts(rs[..|rs| - 1]) + rs[|rs| - 1].cost
  }

  /** Replacing one route changes the sum by exactly the change of that route's cost. */
  lemma {:induction false} SumCostsUpdate(rs: seq<Route>, i: nat, r: Route)
    requires i < |rs|
    ensures SumCosts(rs[i := r]) == SumCosts(rs) - rs[i].cost + r.cost
    decreases |rs|
  {
    var n := |rs| - 1;
    var u := rs[i := r];
    assert u[..n] == if i == n then rs[..n] else rs[..n][i := r];
    if i < n {
      SumCostsUpdate(rs[..n], i, r);
    }
  }

  // ---------------------------------------------------------------- loads

  /** The customers of a route: everything between the two depot visits. */
  function Interior(nodes: seq<int>): seq<int>
    requires |nodes| >= 2
  {
    nodes[1..|nodes| - 1]
  }

  /** Every id of the sequence can be looked up. */
  predicate Known(ids: seq<int>, m: map<int, Node>) {
    forall i | 0 <= i < |ids| :: ids[i] in m
  }

  /** What one node contributes to the load of kind k. */
  function Share(x: int, m: map<int, Node>, k: NodeKind): int
    requires x in m
  {
    if m[x].kind == k then m[x].demand else 0
  }

  /** The total demand of the nodes of kind k in the sequence. */
  function LoadOf(ids: seq<int>, m: map<int, Node>, k: NodeKind): int
    requires Known(ids, m)
  {
    if |ids| == 0 then 0 else LoadOf(ids[..|ids| - 1], m, k) + Share(ids[|ids| - 1], m, k)
  }

  /** The load is additive over concatenation. */
  lemma {:induction false} LoadOfConcat(a: seq<int>, b: seq<int>, m: map<int, Node>, k: NodeKind)
    requires Known(a, m) && Known(b, m)
    ensures Known(a + b, m)
    ensures LoadOf(a + b, m, k) == LoadOf(a, m, k) + LoadOf(b, m, k)
    decreases |b|
  {
    if |b| == 0 {
      assert a + b == a;
    } else {
      var c := b[..|b| - 1];
      assert (a + b)[..|a + b| - 1] == a + c;
      LoadOfConcat(a, c, m, k);
    }
  }

  /** Overwriting one position changes the load by what leaves and what comes in. */
  lemma {:induction false} LoadOfReplace(s: seq<int>, p: nat, y: int, m: map<int, Node>, k: NodeKind)
    requires p < |s| && Known(s, m) && y in m
    ensures Known(s[p := y], m)
    ensures LoadOf(s[p := y], m, k) == LoadOf(s, m, k) - Share(s[p], m, k) + Share(y, m, k)
    decreases |s|
  {
    var n := |s| - 1;
    var u := s[p := y];
    if p < n {
      assert u[..n] == s[..n][p := y];
      LoadOfReplace(s[..n], p, y, m, k);
    } else {
      assert u[..n] == s[..n];
    }
  }

  /** For nodes that the lookup returns unchanged, the load of their own kind is
      their summed demand and the load of any other kind is zero. */
  lemma {:induction false} LoadOfNodes(ns: seq<Node>, m: map<int, Node>, k: NodeKind, own: NodeKind)
    requires forall x | x in ns :: x.id in m && m[x.id] == x && x.kind == own
    ensures Known(Ids(ns), m)
    ensures LoadOf(Ids(ns), m, k) == if k == own then Demand(ns) else 0
    decreases |ns|
  {
    if |ns| > 0 {
      var t := ns[..|ns| - 1];
      assert Ids(ns)[..|ns| - 1] == Ids(t);
      LoadOfNodes(t, m, k, own);
    }
  }

  /** The summed demand of a sequence of nodes. */
  function Demand(ns: seq<Node>): int {
    if |ns| == 0 then 0 else Demand(ns[..|ns| - 1]) + ns[|ns| - 1].demand
  }

  // ---------------------------------------------------------------- invariants

  /** No backhaul customer is followed by a linehaul customer. */
  predicate Precedence(nodes: seq<int>, m: map<int, Node>)
    requires Known(nodes, m)
  {
    forall i, j | 0 < i < j < |nodes| - 1 ::
      m[nodes[i]].kind == Backhaul ==> m[nodes[j]].kind != Linehaul
  }

  /** A route whose shape is sound and whose cached figures agree with its nodes. */
  predicate RouteConsistent(r: Route, m: map<int, Node>, dist: Distance) {
    && |r.nodes| >= 2
    && Known(r.nodes, m)
    && (forall i | 0 < i < |r.nodes| - 1 :: m[r.nodes[i]].kind != Depot)
    && Precedence(r.nodes, m)
    && r.delivered == LoadOf(Interior(r.nodes), m, Linehaul)
    && r.picked == LoadOf(Interior(r.nodes), m, Backhaul)
    && r.used == r.delivered + r.picked
    && r.cost == PathCost(r.nodes, dist)
  }

  /** Every route is consistent and the cached total is the sum of the route costs. */
  predicate Consistent(s: Solution, m: map<int, Node>, dist: Distance) {
    && (forall r | r in s.routes :: RouteConsistent(r, m, dist))
    && s.cost == SumCosts(s.routes)
  }

  /** Every route starts and ends at the depot. */
  predicate DepotAtEnds(s: Solution, depot: int) {
    forall r | r in s.routes :: |r.nodes| >= 2 && r.nodes[0] == depot && r.nodes[|r.nodes| - 1] == depot
  }

  /** Both cached loads of every route are within the vehicle capacity. */
  predicate WithinCapacity(s: Solution, capacity: int) {
    forall r | r in s.routes :: r.delivered <= capacity && r.picked <= capacity
  }

  /** What the moves need in order to run: no empty route and every id known. */
  predicate Addressable(s: Solution, m: map<int, Node>) {
    forall r | r in s.routes :: |r.nodes| >= 1 && Known(r.nodes, m)
  }

  /** All node ids of all routes, route after route. */
  function AllIds(rs: seq<Route>): seq<int> {
    if |rs| == 0 then [] else AllIds(rs[..|rs| - 1]) + rs[|rs| - 1].nodes
  }

  /** Replacing one route swaps its nodes for the new route's in the multiset of all ids. */
  lemma {:induction false} AllIdsUpdate(rs: seq<Route>, i: nat, r: Route)
    requires i < |rs|
    ensures multiset(AllIds(rs[i := r])) + multiset(rs[i].nodes) == multiset(AllIds(rs)) + multiset(r.nodes)
    decreases |rs|
  {
    var n := |rs| - 1;
    var u := rs[i := r];
    AllIdsLast(u);
    AllIdsLast(rs);
    if i == n {
      assert u[..n] == rs[..n] && u[n] == r;
      var a := multiset(AllIds(rs[..n]));
      assert multiset(AllIds(u)) == a + multiset(r.nodes);
      assert multiset(AllIds(rs)) == a + multiset(rs[i].nodes);
      BagCommute(a, multiset(rs[i].nodes), multiset(r.nodes));
    } else {
      var v := rs[..n];
      assert u[..n] == v[i := r];
      AllIdsUpdate(v, i, r);
      assert v[i] == rs[i] && u[n] == rs[n];
      var a, a', l := multiset(AllIds(v)), multiset(AllIds(v[i := r])), multiset(rs[n].nodes);
      assert multiset(AllIds(u)) == a' + l;
      assert multiset(AllIds(rs)) == a + l;
      BagShift(a, a', l, multiset(rs[i].nodes), multiset(r.nodes));
    }
  }

  lemma AllIdsLast(rs: seq<Route>)
    requires rs != []
    ensures multiset(AllIds(rs)) == multiset(AllIds(rs[..|rs| - 1])) + multiset(rs[|rs| - 1].nodes)
  {
  }

  lemma BagCommute<T>(a: multiset<T>, x: multiset<T>, r: multiset<T>)
    ensures (a + r) + x == (a + x) + r
  {
    forall y ensures ((a + r) + x)[y] == ((a + x) + r)[y] {
    }
  }

  /** Adding the same bag to both sides of a balance keeps it balanced. */
  lemma BagShift<T>(a: multiset<T>, a': multiset<T>, l: multiset<T>, x: multiset<T>, r: multiset<T>)
    requires a' + x == a + r
    ensures (a' + l) + x == (a + l) + r
  {
    forall y ensures ((a' + l) + x)[y] == ((a + l) + r)[y] {
      assert (a' + x)[y] == (a + r)[y];
    }
  }

  /** Two route sequences of equal length with the same endpoints and, at every
      inner position, nodes of the same kind. */
  predicate SameShape(a: Solution, b: Solution, m: map<int, Node>) {
    && |a.routes| == |b.routes|
    && forall r | 0 <= r < |a.routes| :: SameRouteShape(a.routes[r].nodes, b.routes[r].nodes, m)
  }

  predicate SameRouteShape(s: seq<int>, t: seq<int>, m: map<int, Node>) {
    && |s| == |t|
    && (|s| >= 1 ==> s[0] == t[0] && s[|s| - 1] == t[|t| - 1])
    && forall i | 0 < i < |s| - 1 :: s[i] in m && t[i] in m && m[s[i]].kind == m[t[i]].kind
  }

  /** What every move of the local search keeps from `a` to `b`: the shape of
      every route, the multiset of all node ids, addressability, and (when `a`
      has them) consistency of the cached figures and the capacity bounds. */
  predicate Preserves(a: Solution, b: Solution, m: map<int, Node>, capacity: int, dist: Distance) {
    && SameShape(a, b, m)
    && Addressable(b, m)
    && multiset(AllIds(a.routes)) == multiset(AllIds(b.routes))
    && (Consistent(a, m, dist) ==> Consistent(b, m, dist))
    && (WithinCapacity(a, capacity) ==> WithinCapacity(b, capacity))
  }

  /** An addressable solution is related to itself. */
  lemma PreservesRefl(a: Solution, m: map<int, Node>, capacity: int, dist: Distance)
    requires Addressable(a, m)
    ensures Preserves(a, a, m, capacity, dist)
  {
    forall r | 0 <= r < |a.routes| ensures SameRouteShape(a.routes[r].nodes, a.routes[r].nodes, m) {
      assert a.routes[r] in a.routes;
      assert Known(a.routes[r].nodes, m);
    }
  }

  /** The preserved properties compose. */
  lemma PreservesTrans(a: Solution, b: Solution, c: Solution, m: map<int, Node>, capacity: int, dist: Distance)
    requires Preserves(a, b, m, capacity, dist) && Preserves(b, c, m, capacity, dist)
    ensures Preserves(a, c, m, capacity, dist)
  {
    forall r | 0 <= r < |a.routes| ensures SameRouteShape(a.routes[r].nodes, c.routes[r].nodes, m) {
      assert SameRouteShape(a.routes[r].nodes, b.routes[r].nodes, m);
      assert SameRouteShape(b.routes[r].nodes, c.routes[r].nodes, m);
    }
  }
}
