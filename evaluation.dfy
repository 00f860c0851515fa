/** The evaluation functions: the cost of one route and of a whole solution. */
module Evaluation {
  import opened Instance
  import opened Routes

  /** Accumulates the distances between consecutive nodes (calcular_costo_ruta). */
  method RouteCost(nodes: seq<int>, dist: Distance) returns (cost: nat)
    ensures cost == PathCost(nodes, dist)
    ensures |nodes| < 2 ==> cost == 0
  {
    cost := 0;
    var i := 1;
    while i < |nodes|
      invariant 1 <= i <= |nodes| || (|nodes| == 0 && i == 1)
      invariant cost == PathCost(nodes[..if i <= |nodes| then i else 0], dist)
    {
      assert nodes[..i + 1][..i] == nodes[..i];
      cost := cost + dist(nodes[i - 1], nodes[i]);
      i := i + 1;
    }
    assert |nodes| >= 1 ==> nodes[..i] == nodes;
  }

  /** Adds up the cached route costs (the closing loop of the swap move). */
  method SumRouteCosts(rs: seq<Route>) returns (total: int)
    ensures total == SumCosts(rs)
  {
    total := 0;
    var i := 0;
    while i < |rs|
      invariant 0 <= i <= |rs|
      invariant total == SumCosts(rs[..i])
    {
      assert rs[..i + 1][..i] == rs[..i];
      total := total + rs[i].cost;
      i := i + 1;
    }
    assert rs[..i] == rs;
  }

  /** The solution with every route's cost recomputed from its nodes and the
      total set to their sum. */
  function Recosted(s: Solution, dist: Distance): Solution {
    var rs := seq(|s.routes|, i requires 0 <= i < |s.routes| =>
                    s.routes[i].(cost := PathCost(s.routes[i].nodes, dist)));
    Solution(rs, SumCosts(rs))
  }

  /** Overwrites every route's cost with its recomputed value, sets the
      solution's total to their sum and returns it (calcular_costo_total). */
  method TotalCost(s: Solution, dist: Distance) returns (s': Solution, total: int)
    ensures |s'.routes| == |s.routes|
    ensures forall i | 0 <= i < |s.routes| ::
              s'.routes[i] == s.routes[i].(cost := PathCost(s.routes[i].nodes, dist))
    ensures s'.cost == total == SumCosts(s'.routes)
  {
    var rs := s.routes;
    total := 0;
    var i := 0;
    while i < |rs|
      invariant 0 <= i <= |rs| && |rs| == |s.routes|
      invariant forall j | 0 <= j < i :: rs[j] == s.routes[j].(cost := PathCost(s.routes[j].nodes, dist))
      invariant forall j | i <= j < |rs| :: rs[j] == s.routes[j]
      invariant total == SumCosts(rs[..i])
    {
      var c := RouteCost(rs[i].nodes, dist);
      rs := rs[i := rs[i].(cost := c)];
      assert rs[..i + 1][..i] == rs[..i];
      total := total + c;
      i := i + 1;
    }
    assert rs[..i] == rs;
    s' := Solution(rs, total);
  }

  /** What TotalCost returns is the recomputed solution. */
  lemma TotalCostRecosted(s: Solution, s': Solution, dist: Distance)
    requires |s'.routes| == |s.routes|
    requires forall i | 0 <= i < |s.routes| ::
               s'.routes[i] == s.routes[i].(cost := PathCost(s.routes[i].nodes, dist))
    requires s'.cost == SumCosts(s'.routes)
    ensures s' == Recosted(s, dist)
  {
    assert s'.routes == Recosted(s, dist).routes;
  }

  /** After recomputation every cached cost agrees with the nodes. */
  lemma RecostedAgrees(s: Solution, dist: Distance)
    ensures Recosted(s, dist).cost == SumCosts(Recosted(s, dist).routes)
    ensures forall r | r in Recosted(s, dist).routes :: r.cost == PathCost(r.nodes, dist)
  {
  }

  /** A solution whose cached costs already agree is left exactly as it was. */
  lemma RecostedFixpoint(s: Solution, dist: Distance)
    requires forall r | r in s.routes :: r.cost == PathCost(r.nodes, dist)
    requires s.cost == SumCosts(s.routes)
    ensures Recosted(s, dist) == s
  {
    var t := Recosted(s, dist);
    assert |t.routes| == |s.routes|;
    forall i | 0 <= i < |s.routes| ensures t.routes[i] == s.routes[i] {
      assert s.routes[i] in s.routes;
    }
    assert t.routes == s.routes;
  }

  /** Evaluating twice without a mutation in between yields the same solution
      and the same total. */
  lemma RecostedIdempotent(s: Solution, dist: Distance)
    ensures Recosted(Recosted(s, dist), dist) == Recosted(s, dist)
  {
    RecostedFixpoint(Recosted(s, dist), dist);
  }

  /** Evaluation makes a consistent solution out of any solution whose loads agree. */
  lemma RecostedConsistent(s: Solution, m: map<int, Node>, dist: Distance)
    requires forall r | r in s.routes :: RouteConsistent(r.(cost := PathCost(r.nodes, dist)), m, dist)
    ensures Consistent(Recosted(s, dist), m, dist)
  {
    var t := Recosted(s, dist);
    forall r | r in t.routes ensures RouteConsistent(r, m, dist) {
      var i :| 0 <= i < |t.routes| && t.routes[i] == r;
      assert s.routes[i] in s.routes;
    }
  }
}
