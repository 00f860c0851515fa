/** The constructive builder (generar_solucion_inicial): round-robin dealing of
    linehauls, capacity-checked sweeps, closing depots, then backhaul sweeps. */
module Builder {
  import opened Instance
  import opened Routes
  import opened Evaluation

  // ---------------------------------------------------------------- segments

  /** All nodes of a sequence of per-route segments, as a multiset. */
  function Bag(segs: seq<seq<Node>>): multiset<Node> {
    if |segs| == 0 then multiset{} else Bag(segs[..|segs| - 1]) + multiset(segs[|segs| - 1])
  }

  /** Appending a node to one segment adds exactly that node to the bag. */
  lemma {:induction false} BagAppend(segs: seq<seq<Node>>, i: nat, x: Node)
    requires i < |segs|
    ensures Bag(segs[i := segs[i] + [x]]) == Bag(segs) + multiset{x}
    decreases |segs|
  {
    var n := |segs| - 1;
    var u := segs[i := segs[i] + [x]];
    assert Bag(u) == Bag(u[..n]) + multiset(u[n]);
    assert Bag(segs) == Bag(segs[..n]) + multiset(segs[n]);
    if i == n {
      assert u[..n] == segs[..n];
      assert multiset(segs[i] + [x]) == multiset(segs[i]) + multiset{x};
      BagAssoc(Bag(segs[..n]), multiset(segs[i]), multiset{x});
    } else {
      var v := segs[..n];
      assert u[..n] == v[i := v[i] + [x]] && u[n] == segs[n];
      BagAppend(v, i, x);
      BagCommute(Bag(v), multiset{x}, multiset(segs[n]));
    }
  }

  lemma BagAssoc<T>(a: multiset<T>, b: multiset<T>, c: multiset<T>)
    ensures a + (b + c) == (a + b) + c
  {
    forall y ensures (a + (b + c))[y] == ((a + b) + c)[y] {
    }
  }

  /** Segments that are all empty hold nothing. */
  lemma {:induction false} BagEmpty(segs: seq<seq<Node>>)
    requires forall r | 0 <= r < |segs| :: segs[r] == []
    ensures Bag(segs) == multiset{}
    decreases |segs|
  {
    if |segs| > 0 {
      BagEmpty(segs[..|segs| - 1]);
    }
  }

  /** A node of any segment is in the bag. */
  lemma {:induction false} BagHas(segs: seq<seq<Node>>, r: nat, x: Node)
    requires r < |segs| && x in segs[r]
    ensures x in Bag(segs)
    decreases |segs|
  {
    var n := |segs| - 1;
    if r < n {
      assert segs[..n][r] == segs[r];
      BagHas(segs[..n], r, x);
    }
  }

  lemma IdsAppend(s: seq<Node>, x: Node)
    ensures Ids(s + [x]) == Ids(s) + [x.id]
  {
  }

  lemma DemandAppend(s: seq<Node>, x: Node)
    ensures Demand(s + [x]) == Demand(s) + x.demand
  {
    assert (s + [x])[..|s|] == s;
  }

  lemma PrefixStep(order: seq<Node>, k: nat)
    requires k < |order|
    ensures IdSet(order[..k + 1]) == IdSet(order[..k]) + {order[k].id}
    ensures multiset(order[..k + 1]) == multiset(order[..k]) + multiset{order[k]}
  {
    assert order[..k + 1] == order[..k] + [order[k]];
  }

  // ---------------------------------------------------------------- linehaul phases

  /** The state while linehauls are dealt: route r is the depot followed by the
      linehauls of segs[r], its delivered load is their demand, the placed
      linehauls are exactly the first `next` of the shuffled list, and `used`
      holds their ids. */
  predicate DealState(routes: seq<Route>, segs: seq<seq<Node>>, depot: int,
                      order: seq<Node>, next: nat, used: set<int>)
  {
    && |segs| == |routes|
    && next <= |order|
    && (forall r | 0 <= r < |routes| :: routes[r] == Dealt(depot, segs[r]))
    && Bag(segs) == multiset(order[..next])
    && used == IdSet(order[..next])
  }

  /** The open route made of the depot and the linehauls ls, delivering their demand. */
  function Dealt(depot: int, ls: seq<Node>): Route {
    Route([depot] + Ids(ls), 0, Demand(ls), 0, 0)
  }

  /** The route after pushing node n at its back. */
  function PushBack(route: Route, n: Node): Route {
    route.(nodes := route.nodes + [n.id], delivered := route.delivered + n.demand)
  }

  /** Placing the next linehaul on route i keeps the dealing state. */
  lemma DealStep(routes: seq<Route>, segs: seq<seq<Node>>, depot: int,
                 order: seq<Node>, next: nat, used: set<int>, i: nat)
    requires DealState(routes, segs, depot, order, next, used)
    requires i < |routes| && next < |order|
    ensures DealState(routes[i := PushBack(routes[i], order[next])], segs[i := segs[i] + [order[next]]],
                      depot, order, next + 1, used + {order[next].id})
  {
    var n := order[next];
    IdsAppend(segs[i], n);
    DemandAppend(segs[i], n);
    assert PushBack(routes[i], n) == Dealt(depot, segs[i] + [n]);
    BagAppend(segs, i, n);
    PrefixStep(order, next);
  }

  /** Puts the depot at the head of every route (source lines 173-182). */
  method OpenRoutes(vehicles: nat, depot: int) returns (routes: seq<Route>)
    ensures |routes| == vehicles
    ensures forall r | 0 <= r < vehicles :: routes[r] == Route([depot], 0, 0, 0, 0)
  {
    routes := seq(vehicles, _ => EmptyRoute);
    var i := 0;
    while i < vehicles
      invariant 0 <= i <= vehicles && |routes| == vehicles
      invariant forall r | 0 <= r < i :: routes[r] == Route([depot], 0, 0, 0, 0)
      invariant forall r | i <= r < vehicles :: routes[r] == EmptyRoute
    {
      routes := routes[i := routes[i].(nodes := routes[i].nodes + [depot])];
      i := i + 1;
    }
  }

  /** The state of the first dealing round after `next` linehauls: the dealing
      state, with route r holding the r-th linehaul for every r below next and
      nothing else. */
  predicate RoundState(routes: seq<Route>, segs: seq<seq<Node>>, depot: int,
                       order: seq<Node>, next: nat, used: set<int>)
  {
    && DealState(routes, segs, depot, order, next, used)
    && next <= |routes|
    && forall r | 0 <= r < |routes| :: segs[r] == if r < next then [order[r]] else []
  }

  /** Dealing the next linehaul to the next route keeps the round's state. */
  lemma RoundStep(routes: seq<Route>, segs: seq<seq<Node>>, depot: int,
                  order: seq<Node>, next: nat, used: set<int>)
    requires RoundState(routes, segs, depot, order, next, used)
    requires next < |routes| && next < |order|
    ensures RoundState(routes[next := PushBack(routes[next], order[next])],
                       segs[next := segs[next] + [order[next]]],
                       depot, order, next + 1, used + {order[next].id})
  {
    DealStep(routes, segs, depot, order, next, used, next);
    assert segs[next] + [order[next]] == [order[next]];
  }

  /** Deals one linehaul to each route in turn, without a capacity check, while
      linehauls remain (source lines 184-191). */
  method DealFirstRound(routes: seq<Route>, depot: int, order: seq<Node>)
    returns (routes': seq<Route>, next: nat, used: set<int>, ghost segs: seq<seq<Node>>)
    requires forall r | 0 <= r < |routes| :: routes[r] == Route([depot], 0, 0, 0, 0)
    ensures DealState(routes', segs, depot, order, next, used)
    ensures |routes'| == |routes|
    ensures next == if |routes| < |order| then |routes| else |order|
    ensures forall r | 0 <= r < |routes| :: segs[r] == if r < next then [order[r]] else []
  {
    routes', next, used := routes, 0, {};
    segs := seq(|routes|, _ => []);
    BagEmpty(segs);
    assert Dealt(depot, []) == Route([depot], 0, 0, 0, 0);
    var i := 0;
    while i < |routes| && next < |order|
      invariant i == next && |routes'| == |routes|
      invariant RoundState(routes', segs, depot, order, next, used)
    {
      RoundStep(routes', segs, depot, order, next, used);
      routes' := routes'[i := PushBack(routes'[i], order[next])];
      segs := segs[i := segs[i] + [order[next]]];
      used := used + {order[next].id};
      next := next + 1;
      i := i + 1;
    }
  }

  /** Every node placed from position `lo` to `hi` carried an id that was
      neither in `base` nor the id of a node placed before it. */
  predicate PlacedFresh(order: seq<Node>, lo: nat, hi: nat, base: set<int>)
    requires hi <= |order|
  {
    && (forall k | lo <= k < hi :: order[k].id !in base)
    && (forall j, k | 0 <= j < k < hi && lo <= k :: order[j].id != order[k].id)
  }

  /** Placing node `hi` when its id is not yet used extends the fresh range. */
  lemma PlacedFreshStep(order: seq<Node>, lo: nat, hi: nat, base: set<int>)
    requires hi < |order| && PlacedFresh(order, lo, hi, base)
    requires order[hi].id !in base + IdSet(order[..hi])
    ensures PlacedFresh(order, lo, hi + 1, base)
  {
    forall j | 0 <= j < hi ensures order[j].id != order[hi].id {
      assert order[j] in order[..hi];
    }
  }

  /** Whether linehaul n may go onto the route (source line 200). */
  predicate LinehaulFits(route: Route, n: Node, used: set<int>, capacity: int) {
    n.id !in used && route.delivered + n.demand <= capacity
  }

  /** What the capacity-checked sweeps keep, relative to their starting point
      (routes0, segs0, next0): the dealing state, segments that only grew at
      their back, the delivered bound on every route that holds two or more
      linehauls, and fresh ids for everything placed since next0. */
  predicate FillInv(segs0: seq<seq<Node>>, routes: seq<Route>, segs: seq<seq<Node>>, depot: int,
                    order: seq<Node>, next0: nat, next: nat, used: set<int>, capacity: int)
  {
    && DealState(routes, segs, depot, order, next, used)
    && |segs0| == |segs| && next0 <= next
    && (forall r | 0 <= r < |segs| :: |segs[r]| >= |segs0[r]| && segs[r][..|segs0[r]|] == segs0[r])
    && (forall r | 0 <= r < |routes| :: |segs[r]| >= 2 ==> routes[r].delivered <= capacity)
    && PlacedFresh(order, next0, next, {})
  }

  /** Placing a fitting linehaul keeps the sweep invariant. */
  lemma FillStep(segs0: seq<seq<Node>>, routes: seq<Route>, segs: seq<seq<Node>>, depot: int,
                 order: seq<Node>, next0: nat, next: nat, used: set<int>, capacity: int, i: nat)
    requires FillInv(segs0, routes, segs, depot, order, next0, next, used, capacity)
    requires i < |routes| && next < |order| && LinehaulFits(routes[i], order[next], used, capacity)
    ensures FillInv(segs0, routes[i := PushBack(routes[i], order[next])], segs[i := segs[i] + [order[next]]],
                    depot, order, next0, next + 1, used + {order[next].id}, capacity)
  {
    var n := order[next];
    var routes', segs' := routes[i := PushBack(routes[i], n)], segs[i := segs[i] + [n]];
    DealStep(routes, segs, depot, order, next, used, i);
    forall r | 0 <= r < |segs'| ensures |segs'[r]| >= |segs0[r]| && segs'[r][..|segs0[r]|] == segs0[r] {
      if r == i {
        assert segs[i][..|segs0[i]|] == (segs[i] + [n])[..|segs0[i]|];
      }
    }
    forall r | 0 <= r < |routes'| ensures |segs'[r]| >= 2 ==> routes'[r].delivered <= capacity {
    }
    PlacedFreshStep(order, next0, next, {});
  }

  /** The outcome of one linehaul sweep from route i on: each route in turn is
      offered the next linehaul and takes it at its back if it fits, while
      linehauls remain (source lines 196-207). */
  function FillSweep(routes: seq<Route>, order: seq<Node>, next: nat, used: set<int>,
                     capacity: int, i: nat): (p: Placement)
    ensures |p.routes| == |routes|
    ensures next <= p.next && (p.next <= |order| || p.next == next)
    decreases |routes| - i
  {
    if i >= |routes| || next >= |order| then Placement(routes, next, used)
    else if LinehaulFits(routes[i], order[next], used, capacity) then
      FillSweep(routes[i := PushBack(routes[i], order[next])], order, next + 1,
                used + {order[next].id}, capacity, i + 1)
    else FillSweep(routes, order, next, used, capacity, i + 1)
  }

  /** The linehaul segments alongside FillSweep: the taken linehaul is
      appended to the segment of the route that takes it. */
  ghost function FillSweepSegs(routes: seq<Route>, segs: seq<seq<Node>>, order: seq<Node>, next: nat,
                               used: set<int>, capacity: int, i: nat): (segs': seq<seq<Node>>)
    requires |segs| == |routes|
    ensures |segs'| == |routes|
    decreases |routes| - i
  {
    if i >= |routes| || next >= |order| then segs
    else if LinehaulFits(routes[i], order[next], used, capacity) then
      FillSweepSegs(routes[i := PushBack(routes[i], order[next])], segs[i := segs[i] + [order[next]]],
                    order, next + 1, used + {order[next].id}, capacity, i + 1)
    else FillSweepSegs(routes, segs, order, next, used, capacity, i + 1)
  }

  /** A linehaul sweep keeps the sweep invariant, with its segments as
      FillSweepSegs says; p and psegs name the sweep's outcome. */
  lemma {:induction false} FillSweepKeeps(segs0: seq<seq<Node>>, routes: seq<Route>, segs: seq<seq<Node>>,
                                          depot: int, order: seq<Node>, next0: nat, next: nat,
                                          used: set<int>, capacity: int, i: nat,
                                          p: Placement, psegs: seq<seq<Node>>)
    requires FillInv(segs0, routes, segs, depot, order, next0, next, used, capacity)
    requires p == FillSweep(routes, order, next, used, capacity, i)
    requires psegs == FillSweepSegs(routes, segs, order, next, used, capacity, i)
    ensures FillInv(segs0, p.routes, psegs, depot, order, next0, p.next, p.used, capacity)
    decreases |routes| - i, 1
  {
    if i >= |routes| || next >= |order| {
    } else if LinehaulFits(routes[i], order[next], used, capacity) {
      FillSweepTakes(segs0, routes, segs, depot, order, next0, next, used, capacity, i, p, psegs);
    } else {
      FillSweepKeeps(segs0, routes, segs, depot, order, next0, next, used, capacity, i + 1, p, psegs);
    }
  }

  /** The case of FillSweepKeeps where route i takes the next linehaul. */
  lemma {:induction false} FillSweepTakes(segs0: seq<seq<Node>>, routes: seq<Route>, segs: seq<seq<Node>>,
                                          depot: int, order: seq<Node>, next0: nat, next: nat,
                                          used: set<int>, capacity: int, i: nat,
                                          p: Placement, psegs: seq<seq<Node>>)
    requires FillInv(segs0, routes, segs, depot, order, next0, next, used, capacity)
    requires i < |routes| && next < |order| && LinehaulFits(routes[i], order[next], used, capacity)
    requires p == FillSweep(routes, order, next, used, capacity, i)
    requires psegs == FillSweepSegs(routes, segs, order, next, used, capacity, i)
    ensures FillInv(segs0, p.routes, psegs, depot, order, next0, p.next, p.used, capacity)
    decreases |routes| - i, 0
  {
    var n := order[next];
    FillStep(segs0, routes, segs, depot, order, next0, next, used, capacity, i);
    FillSweepKeeps(segs0, routes[i := PushBack(routes[i], n)], segs[i := segs[i] + [n]], depot, order,
                   next0, next + 1, used + {n.id}, capacity, i + 1, p, psegs);
  }

  /** A linehaul sweep that places nothing changes nothing, and then none of
      the routes it passed could take the next linehaul. */
  lemma {:induction false} FillSweepStops(routes: seq<Route>, order: seq<Node>, next: nat, used: set<int>,
                                          capacity: int, i: nat)
    ensures var p := FillSweep(routes, order, next, used, capacity, i);
            p.next == next ==>
              && p.routes == routes && p.used == used
              && (next < |order| ==>
                    forall r | i <= r < |routes| :: !LinehaulFits(routes[r], order[next], used, capacity))
    decreases |routes| - i
  {
    if i >= |routes| || next >= |order| {
    } else if LinehaulFits(routes[i], order[next], used, capacity) {
      var q := routes[i := PushBack(routes[i], order[next])];
      var p := FillSweep(q, order, next + 1, used + {order[next].id}, capacity, i + 1);
      assert p.next >= next + 1;
    } else {
      FillSweepStops(routes, order, next, used, capacity, i + 1);
    }
  }

  /** One sweep over the routes: each route in turn is offered the next
      linehaul and takes it if it fits (source lines 196-207). */
  method SweepLinehauls(routes: seq<Route>, order: seq<Node>, next: nat, used: set<int>, capacity: int)
    returns (routes': seq<Route>, next': nat, used': set<int>, progress: bool)
    ensures Placement(routes', next', used') == FillSweep(routes, order, next, used, capacity, 0)
    ensures progress <==> next < next'
  {
    routes', next', used', progress := routes, next, used, false;
    var i := 0;
    while i < |routes'| && next' < |order|
      invariant 0 <= i <= |routes'| && next <= next'
      invariant FillSweep(routes', order, next', used', capacity, i) == FillSweep(routes, order, next, used, capacity, 0)
      invariant progress <==> next < next'
    {
      var n := order[next'];
      if LinehaulFits(routes'[i], n, used', capacity) {
        routes' := routes'[i := PushBack(routes'[i], n)];
        used' := used' + {n.id};
        next' := next' + 1;
        progress := true;
      }
      i := i + 1;
    }
  }

  /** Sweeps the routes again and again until a full sweep places nothing or
      the linehauls run out (source lines 193-208). */
  method FillLinehauls(routes: seq<Route>, ghost segs: seq<seq<Node>>, depot: int,
                       order: seq<Node>, next: nat, used: set<int>, capacity: int)
    returns (routes': seq<Route>, ghost segs': seq<seq<Node>>, next': nat, used': set<int>)
    requires DealState(routes, segs, depot, order, next, used)
    requires forall r | 0 <= r < |routes| :: |segs[r]| >= 2 ==> routes[r].delivered <= capacity
    ensures FillInv(segs, routes', segs', depot, order, next, next', used', capacity)
    ensures next' < |order| ==>
              forall r | 0 <= r < |routes'| :: !LinehaulFits(routes'[r], order[next'], used', capacity)
  {
    routes', segs', next', used' := routes, segs, next, used;
    forall r | 0 <= r < |segs| ensures segs[r][..|segs[r]|] == segs[r] {
    }
    var progress := true;
    while progress && next' < |order|
      invariant FillInv(segs, routes', segs', depot, order, next, next', used', capacity)
      invariant !progress && next' < |order| ==>
                  forall r | 0 <= r < |routes'| :: !LinehaulFits(routes'[r], order[next'], used', capacity)
      decreases |order| - next', if progress then 1 else 0
    {
      FillSweepKeeps(segs, routes', segs', depot, order, next, next', used', capacity, 0,
                     FillSweep(routes', order, next', used', capacity, 0),
                     FillSweepSegs(routes', segs', order, next', used', capacity, 0));
      FillSweepStops(routes', order, next', used', capacity, 0);
      segs' := FillSweepSegs(routes', segs', order, next', used', capacity, 0);
      routes', next', used', progress := SweepLinehauls(routes', order, next', used', capacity);
    }
  }

  /** Appends the depot to every route (source lines 210-213). */
  method CloseRoutes(routes: seq<Route>, depot: int) returns (routes': seq<Route>)
    ensures |routes'| == |routes|
    ensures forall r | 0 <= r < |routes| :: routes'[r] == routes[r].(nodes := routes[r].nodes + [depot])
  {
    routes' := routes;
    var i := 0;
    while i < |routes|
      invariant 0 <= i <= |routes| && |routes'| == |routes|
      invariant forall r | 0 <= r < i :: routes'[r] == routes[r].(nodes := routes[r].nodes + [depot])
      invariant forall r | i <= r < |routes| :: routes'[r] == routes[r]
    {
      routes' := routes'[i := routes'[i].(nodes := routes'[i].nodes + [depot])];
      i := i + 1;
    }
  }

  // ---------------------------------------------------------------- backhaul phase

  /** The closed route made of the depot, the linehauls ls, the backhauls bs
      and the depot again, with the two segments' demands as its loads. */
  function Built(depot: int, ls: seq<Node>, bs: seq<Node>): Route {
    Route([depot] + Ids(ls) + Ids(bs) + [depot], 0, Demand(ls), Demand(bs), 0)
  }

  /** The state while backhauls are placed: route r is depot, linehauls lsegs[r],
      backhauls bsegs[r], depot; its loads are the two segments' demands; the
      placed backhauls are the first `next` of the shuffled list, and `used`
      holds `base` (the linehaul ids) and their ids. */
  predicate PickState(routes: seq<Route>, lsegs: seq<seq<Node>>, bsegs: seq<seq<Node>>, depot: int,
                      order: seq<Node>, next: nat, used: set<int>, base: set<int>)
  {
    && |lsegs| == |routes| && |bsegs| == |routes|
    && next <= |order|
    && (forall r | 0 <= r < |routes| ::
          routes[r] == Built(depot, lsegs[r], bsegs[r]))
    && Bag(bsegs) == multiset(order[..next])
    && used == base + IdSet(order[..next])
  }

  /** A built route with its used load settled and its cost computed: what
      the builder returns for each vehicle. */
  function Finished(depot: int, ls: seq<Node>, bs: seq<Node>, dist: Distance): Route {
    var b := Settled(depot, ls, bs);
    b.(cost := PathCost(b.nodes, dist))
  }

  /** A built route with its used load settled (source lines 239-241). */
  function Settled(depot: int, ls: seq<Node>, bs: seq<Node>): Route {
    var b := Built(depot, ls, bs);
    b.(used := b.delivered + b.picked)
  }

  /** The route after inserting node n just before its last node. */
  function InsertBeforeLast(route: Route, n: Node): Route
    requires |route.nodes| >= 1
  {
    var last := |route.nodes| - 1;
    route.(nodes := route.nodes[..last] + [n.id] + [route.nodes[last]],
           picked := route.picked + n.demand)
  }

  /** Placing the next backhaul on route i keeps the placing state. */
  lemma PickStep(routes: seq<Route>, lsegs: seq<seq<Node>>, bsegs: seq<seq<Node>>, depot: int,
                 order: seq<Node>, next: nat, used: set<int>, base: set<int>, i: nat)
    requires PickState(routes, lsegs, bsegs, depot, order, next, used, base)
    requires i < |routes| && next < |order|
    ensures |routes[i].nodes| >= 1
    ensures PickState(routes[i := InsertBeforeLast(routes[i], order[next])], lsegs,
                      bsegs[i := bsegs[i] + [order[next]]], depot, order, next + 1,
                      used + {order[next].id}, base)
  {
    var n := order[next];
    var head := [depot] + Ids(lsegs[i]) + Ids(bsegs[i]);
    assert routes[i].nodes == head + [depot];
    assert routes[i].nodes[..|routes[i].nodes| - 1] == head;
    IdsAppend(bsegs[i], n);
    DemandAppend(bsegs[i], n);
    BagAppend(bsegs, i, n);
    PrefixStep(order, next);
  }

  /** Whether backhaul n may go onto the route (source lines 223-227): its id is
      unused, the route already delivers something, and the picked load stays
      within capacity. */
  predicate BackhaulFits(route: Route, n: Node, used: set<int>, capacity: int) {
    n.id !in used && route.delivered > 0 && n.demand <= capacity - route.picked
  }

  /** What the backhaul sweeps keep: the placing state, the two bounds on
      every route that holds a backhaul, and fresh ids for every placed backhaul. */
  predicate PickInv(routes: seq<Route>, lsegs: seq<seq<Node>>, bsegs: seq<seq<Node>>, depot: int,
                    order: seq<Node>, next: nat, used: set<int>, base: set<int>, capacity: int)
  {
    && PickState(routes, lsegs, bsegs, depot, order, next, used, base)
    && (forall r | 0 <= r < |routes| :: bsegs[r] != [] ==>
          routes[r].delivered > 0 && routes[r].picked <= capacity)
    && PlacedFresh(order, 0, next, base)
  }

  /** Placing a fitting backhaul keeps the sweep invariant. */
  lemma PickInvStep(routes: seq<Route>, lsegs: seq<seq<Node>>, bsegs: seq<seq<Node>>, depot: int,
                    order: seq<Node>, next: nat, used: set<int>, base: set<int>, capacity: int, i: nat)
    requires PickInv(routes, lsegs, bsegs, depot, order, next, used, base, capacity)
    requires i < |routes| && next < |order| && BackhaulFits(routes[i], order[next], used, capacity)
    ensures |routes[i].nodes| >= 1
    ensures PickInv(routes[i := InsertBeforeLast(routes[i], order[next])], lsegs,
                    bsegs[i := bsegs[i] + [order[next]]], depot, order, next + 1,
                    used + {order[next].id}, base, capacity)
  {
    PickStep(routes, lsegs, bsegs, depot, order, next, used, base, i);
    PlacedFreshStep(order, 0, next, base);
  }

  /** Where a backhaul sweep leaves the routes, the cursor and the used ids. */
  datatype Placement = Placement(routes: seq<Route>, next: nat, used: set<int>)

  /** Every route has at least one node, so a node can go before its last one. */
  predicate Open(routes: seq<Route>) {
    forall r | 0 <= r < |routes| :: |routes[r].nodes| >= 1
  }

  /** The outcome of one backhaul sweep from route i on: each route in turn is
      offered the next backhaul and takes it if it admits it, while backhauls
      remain (source lines 219-235). */
  function BackSweep(routes: seq<Route>, order: seq<Node>, next: nat, used: set<int>,
                     capacity: int, i: nat): (p: Placement)
    requires Open(routes)
    ensures |p.routes| == |routes| && Open(p.routes)
    ensures next <= p.next && (p.next <= |order| || p.next == next)
    decreases |routes| - i
  {
    if i >= |routes| || next >= |order| then Placement(routes, next, used)
    else if BackhaulFits(routes[i], order[next], used, capacity) then
      BackSweep(routes[i := InsertBeforeLast(routes[i], order[next])], order, next + 1,
                used + {order[next].id}, capacity, i + 1)
    else BackSweep(routes, order, next, used, capacity, i + 1)
  }

  /** The backhaul segments alongside BackSweep: the taken backhaul is
      appended to the segment of the route that takes it. */
  ghost function BackSweepSegs(routes: seq<Route>, bsegs: seq<seq<Node>>, order: seq<Node>, next: nat,
                               used: set<int>, capacity: int, i: nat): (segs: seq<seq<Node>>)
    requires Open(routes) && |bsegs| == |routes|
    ensures |segs| == |routes|
    decreases |routes| - i
  {
    if i >= |routes| || next >= |order| then bsegs
    else if BackhaulFits(routes[i], order[next], used, capacity) then
      BackSweepSegs(routes[i := InsertBeforeLast(routes[i], order[next])], bsegs[i := bsegs[i] + [order[next]]],
                    order, next + 1, used + {order[next].id}, capacity, i + 1)
    else BackSweepSegs(routes, bsegs, order, next, used, capacity, i + 1)
  }

  lemma PickInvOpen(routes: seq<Route>, lsegs: seq<seq<Node>>, bsegs: seq<seq<Node>>, depot: int,
                    order: seq<Node>, next: nat, used: set<int>, base: set<int>, capacity: int)
    requires PickInv(routes, lsegs, bsegs, depot, order, next, used, base, capacity)
    ensures Open(routes)
  {
    forall r | 0 <= r < |routes| ensures |routes[r].nodes| >= 1 {
      assert routes[r] == Built(depot, lsegs[r], bsegs[r]);
    }
  }

  /** A sweep keeps the placing invariant, with its segments as BackSweepSegs
      says; p and psegs name the sweep's outcome. */
  lemma {:induction false} BackSweepKeeps(routes: seq<Route>, lsegs: seq<seq<Node>>, bsegs: seq<seq<Node>>,
                                          depot: int, order: seq<Node>, next: nat, used: set<int>,
                                          base: set<int>, capacity: int, i: nat,
                                          p: Placement, psegs: seq<seq<Node>>)
    requires PickInv(routes, lsegs, bsegs, depot, order, next, used, base, capacity) && Open(routes)
    requires p == BackSweep(routes, order, next, used, capacity, i)
    requires psegs == BackSweepSegs(routes, bsegs, order, next, used, capacity, i)
    ensures PickInv(p.routes, lsegs, psegs, depot, order, p.next, p.used, base, capacity)
    decreases |routes| - i, 1
  {
    if i >= |routes| || next >= |order| {
    } else if BackhaulFits(routes[i], order[next], used, capacity) {
      BackSweepTakes(routes, lsegs, bsegs, depot, order, next, used, base, capacity, i, p, psegs);
    } else {
      BackSweepKeeps(routes, lsegs, bsegs, depot, order, next, used, base, capacity, i + 1, p, psegs);
    }
  }

  /** The case of BackSweepKeeps where route i takes the next backhaul. */
  lemma {:induction false} BackSweepTakes(routes: seq<Route>, lsegs: seq<seq<Node>>, bsegs: seq<seq<Node>>,
                                          depot: int, order: seq<Node>, next: nat, used: set<int>,
                                          base: set<int>, capacity: int, i: nat,
                                          p: Placement, psegs: seq<seq<Node>>)
    requires PickInv(routes, lsegs, bsegs, depot, order, next, used, base, capacity) && Open(routes)
    requires i < |routes| && next < |order| && BackhaulFits(routes[i], order[next], used, capacity)
    requires p == BackSweep(routes, order, next, used, capacity, i)
    requires psegs == BackSweepSegs(routes, bsegs, order, next, used, capacity, i)
    ensures PickInv(p.routes, lsegs, psegs, depot, order, p.next, p.used, base, capacity)
    decreases |routes| - i, 0
  {
    var n := order[next];
    var q, qsegs := routes[i := InsertBeforeLast(routes[i], n)], bsegs[i := bsegs[i] + [n]];
    PickInvStep(routes, lsegs, bsegs, depot, order, next, used, base, capacity, i);
    PickInvOpen(q, lsegs, qsegs, depot, order, next + 1, used + {n.id}, base, capacity);
    BackSweepKeeps(q, lsegs, qsegs, depot, order, next + 1, used + {n.id}, base, capacity, i + 1, p, psegs);
  }

  /** A sweep that places nothing changes nothing, and then none of the routes
      it passed admits the next backhaul. */
  lemma {:induction false} BackSweepStops(routes: seq<Route>, order: seq<Node>, next: nat, used: set<int>,
                                          capacity: int, i: nat)
    requires Open(routes)
    ensures var p := BackSweep(routes, order, next, used, capacity, i);
            p.next == next ==>
              && p.routes == routes && p.used == used
              && (next < |order| ==>
                    forall r | i <= r < |routes| :: !BackhaulFits(routes[r], order[next], used, capacity))
    decreases |routes| - i
  {
    if i >= |routes| || next >= |order| {
    } else if BackhaulFits(routes[i], order[next], used, capacity) {
      var q := routes[i := InsertBeforeLast(routes[i], order[next])];
      var p := BackSweep(q, order, next + 1, used + {order[next].id}, capacity, i + 1);
      assert p.next >= next + 1;
    } else {
      BackSweepStops(routes, order, next, used, capacity, i + 1);
    }
  }

  /** One sweep over the routes: each route in turn is offered the next
      backhaul and takes it, just before its trailing depot, if it admits it
      (source lines 219-235). */
  method SweepBackhauls(routes: seq<Route>, order: seq<Node>, next: nat, used: set<int>, capacity: int)
    returns (routes': seq<Route>, next': nat, used': set<int>, progress: bool)
    requires Open(routes)
    ensures Placement(routes', next', used') == BackSweep(routes, order, next, used, capacity, 0)
    ensures progress <==> next < next'
  {
    routes', next', used', progress := routes, next, used, false;
    var i := 0;
    while i < |routes'| && next' < |order|
      invariant 0 <= i <= |routes'| && next <= next' && Open(routes')
      invariant BackSweep(routes', order, next', used', capacity, i) == BackSweep(routes, order, next, used, capacity, 0)
      invariant progress <==> next < next'
    {
      var n := order[next'];
      if BackhaulFits(routes'[i], n, used', capacity) {
        routes' := routes'[i := InsertBeforeLast(routes'[i], n)];
        used' := used' + {n.id};
        next' := next' + 1;
        progress := true;
      }
      i := i + 1;
    }
  }

  /** Sweeps the routes again and again until a full sweep places nothing or
      the backhauls run out (source lines 215-236). */
  method PlaceBackhauls(routes: seq<Route>, ghost lsegs: seq<seq<Node>>, depot: int,
                        order: seq<Node>, used: set<int>, capacity: int)
    returns (routes': seq<Route>, ghost bsegs: seq<seq<Node>>, next: nat, used': set<int>)
    requires |lsegs| == |routes|
    requires forall r | 0 <= r < |routes| ::
               routes[r] == Route([depot] + Ids(lsegs[r]) + [depot], 0, Demand(lsegs[r]), 0, 0)
    ensures PickInv(routes', lsegs, bsegs, depot, order, next, used', used, capacity)
    ensures next < |order| ==>
              forall r | 0 <= r < |routes'| :: !BackhaulFits(routes'[r], order[next], used', capacity)
  {
    routes', next, used' := routes, 0, used;
    bsegs := seq(|routes|, _ => []);
    BagEmpty(bsegs);
    forall r | 0 <= r < |routes| ensures Ids(bsegs[r]) == [] && Demand(bsegs[r]) == 0 {
    }
    assert order[..0] == [];
    var progress := true;
    while progress && next < |order|
      invariant PickInv(routes', lsegs, bsegs, depot, order, next, used', used, capacity)
      invariant !progress && next < |order| ==>
                  forall r | 0 <= r < |routes'| :: !BackhaulFits(routes'[r], order[next], used', capacity)
      decreases |order| - next, if progress then 1 else 0
    {
      PickInvOpen(routes', lsegs, bsegs, depot, order, next, used', used, capacity);
      BackSweepKeeps(routes', lsegs, bsegs, depot, order, next, used', used, capacity, 0,
                     BackSweep(routes', order, next, used', capacity, 0),
                     BackSweepSegs(routes', bsegs, order, next, used', capacity, 0));
      BackSweepStops(routes', order, next, used', capacity, 0);
      bsegs := BackSweepSegs(routes', bsegs, order, next, used', capacity, 0);
      routes', next, used', progress := SweepBackhauls(routes', order, next, used', capacity);
    }
  }

  /** Sets every route's used load to delivered plus picked (source lines 238-241). */
  method SettleLoads(routes: seq<Route>) returns (routes': seq<Route>)
    ensures |routes'| == |routes|
    ensures forall r | 0 <= r < |routes| ::
              routes'[r] == routes[r].(used := routes[r].delivered + routes[r].picked)
  {
    routes' := routes;
    var i := 0;
    while i < |routes|
      invariant 0 <= i <= |routes| && |routes'| == |routes|
      invariant forall r | 0 <= r < i :: routes'[r] == routes[r].(used := routes[r].delivered + routes[r].picked)
      invariant forall r | i <= r < |routes| :: routes'[r] == routes[r]
    {
      routes' := routes'[i := routes'[i].(used := routes'[i].delivered + routes'[i].picked)];
      i := i + 1;
    }
  }

  // ---------------------------------------------------------------- the whole builder

  /** The smaller of two counts. */
  function Min(a: nat, b: nat): nat {
    if a < b then a else b
  }

  /** Builds the initial solution (generar_solucion_inicial, source lines 160-244).
      The two shuffles are inputs: lineOrder and backOrder must be orderings of
      the instance's linehauls and backhauls. placedL and placedB say how many
      of each were placed; lineSegs[r] and backSegs[r] are the linehauls and
      backhauls that route r visits, in visiting order. */
  method BuildInitial(nodes: seq<Node>, vehicles: nat, capacity: int, depot: int,
                      lineOrder: seq<Node>, backOrder: seq<Node>, dist: Distance)
    returns (sol: Solution, placedL: nat, placedB: nat,
             ghost lineSegs: seq<seq<Node>>, ghost backSegs: seq<seq<Node>>)
    requires multiset(lineOrder) == multiset(OfKind(nodes, Linehaul))
    requires multiset(backOrder) == multiset(OfKind(nodes, Backhaul))
    ensures |sol.routes| == vehicles && |lineSegs| == vehicles && |backSegs| == vehicles
    // every route is depot, its linehauls, its backhauls, depot, with agreeing figures
    // (FinishedShape spells out what Finished means for each route)
    ensures forall r | 0 <= r < vehicles :: sol.routes[r] == Finished(depot, lineSegs[r], backSegs[r], dist)
    ensures sol.cost == SumCosts(sol.routes)
    // exactly the first placedL linehauls and the first placedB backhauls are placed
    ensures Min(vehicles, |lineOrder|) <= placedL <= |lineOrder| && placedB <= |backOrder|
    ensures Bag(lineSegs) == multiset(lineOrder[..placedL])
    ensures Bag(backSegs) == multiset(backOrder[..placedB])
    // the first round gives route r the r-th linehaul
    ensures forall r | 0 <= r < Min(vehicles, |lineOrder|) :: |lineSegs[r]| >= 1 && lineSegs[r][0] == lineOrder[r]
    // capacity: later linehauls and every backhaul were admitted only if they fit
    ensures forall r | 0 <= r < vehicles :: |lineSegs[r]| >= 2 ==> Demand(lineSegs[r]) <= capacity
    ensures forall r | 0 <= r < vehicles :: backSegs[r] != [] ==>
              Demand(lineSegs[r]) > 0 && Demand(backSegs[r]) <= capacity
    // each phase stops only when no route admits the next node
    ensures placedL < |lineOrder| ==>
              forall r | 0 <= r < vehicles ::
                !LinehaulFits(sol.routes[r], lineOrder[placedL], IdSet(lineOrder[..placedL]), capacity)
    ensures placedB < |backOrder| ==>
              forall r | 0 <= r < vehicles ::
                !BackhaulFits(sol.routes[r], backOrder[placedB],
                              IdSet(lineOrder[..placedL]) + IdSet(backOrder[..placedB]), capacity)
    // no id is placed twice, unless the unchecked first round already repeats one
    ensures UniqueIds(lineOrder[..Min(vehicles, |lineOrder|)]) ==>
              UniqueIds(lineOrder[..placedL] + backOrder[..placedB])
    // with unique ids and a known depot the result is consistent under the id lookup
    ensures UniqueIds(nodes) && depot in IdSet(nodes) ==> Consistent(sol, NodeMap(nodes), dist)
  {
    var closed, used;
    closed, placedL, used, lineSegs := LinehaulPhase(vehicles, capacity, depot, lineOrder);
    var settled;
    settled, placedB, backSegs := BackhaulPhase(closed, lineSegs, depot, backOrder, used, capacity);
    var total;
    sol, total := TotalCost(Solution(settled, 0), dist);
    FinishedRoutes(settled, depot, lineSegs, backSegs, sol, dist);
    BuiltStops(sol, depot, lineSegs, backSegs, dist, closed, settled, lineOrder, placedL, backOrder, placedB,
               capacity);
    PlacedUnique(lineOrder, Min(vehicles, |lineOrder|), placedL, backOrder, placedB);
    BuildConsistent(nodes, depot, lineOrder, placedL, lineSegs, backOrder, placedB, backSegs, sol, dist);
  }

  /** The capacity bound and the stop conditions of the two phases, read on the
      finished routes: the linehaul test looks only at the delivered load, which
      the backhauls leave alone, and the backhaul test only at the two loads,
      which recosting leaves alone. */
  lemma BuiltStops(sol: Solution, depot: int, lineSegs: seq<seq<Node>>, backSegs: seq<seq<Node>>, dist: Distance,
                   closed: seq<Route>, settled: seq<Route>, lineOrder: seq<Node>, placedL: nat,
                   backOrder: seq<Node>, placedB: nat, capacity: int)
    requires |sol.routes| == |lineSegs| == |backSegs| == |closed| == |settled|
    requires placedL <= |lineOrder| && placedB <= |backOrder|
    requires forall r | 0 <= r < |sol.routes| :: sol.routes[r] == Finished(depot, lineSegs[r], backSegs[r], dist)
    requires forall r | 0 <= r < |closed| ::
               closed[r] == Route([depot] + Ids(lineSegs[r]) + [depot], 0, Demand(lineSegs[r]), 0, 0)
    requires forall r | 0 <= r < |settled| :: settled[r] == Settled(depot, lineSegs[r], backSegs[r])
    requires forall r | 0 <= r < |closed| :: |lineSegs[r]| >= 2 ==> closed[r].delivered <= capacity
    requires placedL < |lineOrder| ==>
               forall r | 0 <= r < |closed| ::
                 !LinehaulFits(closed[r], lineOrder[placedL], IdSet(lineOrder[..placedL]), capacity)
    requires placedB < |backOrder| ==>
               forall r | 0 <= r < |settled| ::
                 !BackhaulFits(settled[r], backOrder[placedB],
                               IdSet(lineOrder[..placedL]) + IdSet(backOrder[..placedB]), capacity)
    ensures forall r | 0 <= r < |sol.routes| :: |lineSegs[r]| >= 2 ==> Demand(lineSegs[r]) <= capacity
    ensures placedL < |lineOrder| ==>
              forall r | 0 <= r < |sol.routes| ::
                !LinehaulFits(sol.routes[r], lineOrder[placedL], IdSet(lineOrder[..placedL]), capacity)
    ensures placedB < |backOrder| ==>
              forall r | 0 <= r < |sol.routes| ::
                !BackhaulFits(sol.routes[r], backOrder[placedB],
                              IdSet(lineOrder[..placedL]) + IdSet(backOrder[..placedB]), capacity)
  {
  }

  /** What the builder's routes are: the depot, the route's linehauls, its
      backhauls and the depot again, with loads that add up the two segments
      and a cost computed from the nodes; so every route starts and ends at
      the depot. */
  lemma FinishedShape(sol: Solution, depot: int, lineSegs: seq<seq<Node>>, backSegs: seq<seq<Node>>,
                      dist: Distance)
    requires |sol.routes| == |lineSegs| == |backSegs|
    requires forall r | 0 <= r < |sol.routes| :: sol.routes[r] == Finished(depot, lineSegs[r], backSegs[r], dist)
    ensures forall r | 0 <= r < |sol.routes| ::
              && sol.routes[r].nodes == [depot] + Ids(lineSegs[r]) + Ids(backSegs[r]) + [depot]
              && sol.routes[r].delivered == Demand(lineSegs[r])
              && sol.routes[r].picked == Demand(backSegs[r])
              && sol.routes[r].used == sol.routes[r].delivered + sol.routes[r].picked
              && sol.routes[r].cost == PathCost(sol.routes[r].nodes, dist)
    ensures DepotAtEnds(sol, depot)
  {
  }

  /** Recosting settled routes gives the finished ones. */
  lemma FinishedRoutes(routes: seq<Route>, depot: int, lineSegs: seq<seq<Node>>, backSegs: seq<seq<Node>>,
                       sol: Solution, dist: Distance)
    requires |routes| == |lineSegs| == |backSegs| == |sol.routes|
    requires forall r | 0 <= r < |routes| :: routes[r] == Settled(depot, lineSegs[r], backSegs[r])
    requires forall r | 0 <= r < |routes| ::
               sol.routes[r] == routes[r].(cost := PathCost(routes[r].nodes, dist))
    ensures forall r | 0 <= r < |routes| :: sol.routes[r] == Finished(depot, lineSegs[r], backSegs[r], dist)
  {
  }

  /** The linehaul part of the builder (source lines 173-213): open the
      routes, deal the first round, sweep under the capacity, close the routes. */
  method LinehaulPhase(vehicles: nat, capacity: int, depot: int, lineOrder: seq<Node>)
    returns (routes: seq<Route>, placedL: nat, used: set<int>, ghost lineSegs: seq<seq<Node>>)
    ensures |routes| == vehicles && |lineSegs| == vehicles
    ensures forall r | 0 <= r < vehicles ::
              routes[r] == Route([depot] + Ids(lineSegs[r]) + [depot], 0, Demand(lineSegs[r]), 0, 0)
    ensures Min(vehicles, |lineOrder|) <= placedL <= |lineOrder|
    ensures Bag(lineSegs) == multiset(lineOrder[..placedL]) && used == IdSet(lineOrder[..placedL])
    ensures forall r | 0 <= r < Min(vehicles, |lineOrder|) :: |lineSegs[r]| >= 1 && lineSegs[r][0] == lineOrder[r]
    ensures forall r | 0 <= r < vehicles :: |lineSegs[r]| >= 2 ==> routes[r].delivered <= capacity
    ensures placedL < |lineOrder| ==>
              forall r | 0 <= r < vehicles :: !LinehaulFits(routes[r], lineOrder[placedL], used, capacity)
    ensures PlacedFresh(lineOrder, Min(vehicles, |lineOrder|), placedL, {})
  {
    routes := OpenRoutes(vehicles, depot);
    var next;
    ghost var firstSegs;
    routes, next, used, firstSegs := DealFirstRound(routes, depot, lineOrder);
    routes, lineSegs, placedL, used := FillLinehauls(routes, firstSegs, depot, lineOrder, next, used, capacity);
    ghost var filled := routes;
    forall r | 0 <= r < Min(vehicles, |lineOrder|) ensures |lineSegs[r]| >= 1 && lineSegs[r][0] == lineOrder[r] {
      assert lineSegs[r][..|firstSegs[r]|] == firstSegs[r] == [lineOrder[r]];
    }
    routes := CloseRoutes(routes, depot);
    assert forall r | 0 <= r < vehicles :: routes[r] == filled[r].(nodes := filled[r].nodes + [depot]);
  }

  /** The backhaul part of the builder (source lines 215-241): sweep the
      backhauls under the capacity, then settle every route's used load. */
  method BackhaulPhase(routes: seq<Route>, ghost lineSegs: seq<seq<Node>>, depot: int,
                       backOrder: seq<Node>, used: set<int>, capacity: int)
    returns (routes': seq<Route>, placedB: nat, ghost backSegs: seq<seq<Node>>)
    requires |lineSegs| == |routes|
    requires forall r | 0 <= r < |routes| ::
               routes[r] == Route([depot] + Ids(lineSegs[r]) + [depot], 0, Demand(lineSegs[r]), 0, 0)
    ensures |routes'| == |routes| && |backSegs| == |routes|
    ensures forall r | 0 <= r < |routes| :: routes'[r] == Settled(depot, lineSegs[r], backSegs[r])
    ensures placedB <= |backOrder| && Bag(backSegs) == multiset(backOrder[..placedB])
    ensures forall r | 0 <= r < |routes| :: backSegs[r] != [] ==>
              Demand(lineSegs[r]) > 0 && Demand(backSegs[r]) <= capacity
    ensures placedB < |backOrder| ==>
              forall r | 0 <= r < |routes| ::
                !BackhaulFits(routes'[r], backOrder[placedB], used + IdSet(backOrder[..placedB]), capacity)
    ensures PlacedFresh(backOrder, 0, placedB, used)
  {
    var used';
    routes', backSegs, placedB, used' := PlaceBackhauls(routes, lineSegs, depot, backOrder, used, capacity);
    ghost var picked := routes';
    routes' := SettleLoads(routes');
    forall r | 0 <= r < |routes| ensures routes'[r] == Settled(depot, lineSegs[r], backSegs[r]) {
      assert picked[r] == Built(depot, lineSegs[r], backSegs[r]);
    }
  }

  /** Under unique ids, a node of a placed segment is one of the instance's
      nodes of that kind, and the lookup returns it. */
  lemma PlacedAreNodes(nodes: seq<Node>, k: NodeKind, order: seq<Node>, placed: nat,
                       segs: seq<seq<Node>>, r: nat, x: Node)
    requires UniqueIds(nodes) && multiset(order) == multiset(OfKind(nodes, k))
    requires placed <= |order| && Bag(segs) == multiset(order[..placed])
    requires r < |segs| && x in segs[r]
    ensures x.id in NodeMap(nodes) && NodeMap(nodes)[x.id] == x && x.kind == k
  {
    BagHas(segs, r, x);
    assert x in order[..placed];
    assert x in order;
    assert x in multiset(OfKind(nodes, k));
    NodeMapFinds(nodes, x);
  }

  /** The placed ids are pairwise distinct when the first round's are. */
  lemma PlacedUnique(line: seq<Node>, k0: nat, placedL: nat, back: seq<Node>, placedB: nat)
    requires k0 <= placedL <= |line| && placedB <= |back|
    requires PlacedFresh(line, k0, placedL, {})
    requires PlacedFresh(back, 0, placedB, IdSet(line[..placedL]))
    ensures UniqueIds(line[..k0]) ==> UniqueIds(line[..placedL] + back[..placedB])
  {
    if UniqueIds(line[..k0]) {
      PlacedUniqueFrom(line, k0, placedL, back, placedB);
    }
  }

  lemma PlacedUniqueFrom(line: seq<Node>, k0: nat, placedL: nat, back: seq<Node>, placedB: nat)
    requires k0 <= placedL <= |line| && placedB <= |back|
    requires UniqueIds(line[..k0]) && PlacedFresh(line, k0, placedL, {})
    requires PlacedFresh(back, 0, placedB, IdSet(line[..placedL]))
    ensures UniqueIds(line[..placedL] + back[..placedB])
  {
    var s := line[..placedL] + back[..placedB];
    forall i, j | 0 <= i < j < |s| ensures s[i].id != s[j].id {
      if j < placedL {
        if j < k0 {
          assert s[i] == line[..k0][i] && s[j] == line[..k0][j];
        }
      } else if i < placedL {
        assert s[j] == back[j - placedL];
        assert s[i] in line[..placedL];
      } else {
        assert s[i] == back[i - placedL] && s[j] == back[j - placedL];
      }
    }
  }

  /** Under unique ids, every built route with its loads settled and its cost
      computed is consistent, and so is the solution. */
  lemma BuildConsistent(nodes: seq<Node>, depot: int, line: seq<Node>, placedL: nat, lineSegs: seq<seq<Node>>,
                        back: seq<Node>, placedB: nat, backSegs: seq<seq<Node>>, sol: Solution, dist: Distance)
    requires multiset(line) == multiset(OfKind(nodes, Linehaul))
    requires multiset(back) == multiset(OfKind(nodes, Backhaul))
    requires placedL <= |line| && Bag(lineSegs) == multiset(line[..placedL])
    requires placedB <= |back| && Bag(backSegs) == multiset(back[..placedB])
    requires |sol.routes| == |lineSegs| == |backSegs|
    requires forall r | 0 <= r < |sol.routes| ::
               sol.routes[r] == Finished(depot, lineSegs[r], backSegs[r], dist)
    requires sol.cost == SumCosts(sol.routes)
    ensures UniqueIds(nodes) && depot in IdSet(nodes) ==> Consistent(sol, NodeMap(nodes), dist)
  {
    if UniqueIds(nodes) && depot in IdSet(nodes) {
      SegmentsResolve(nodes, Linehaul, line, placedL, lineSegs);
      SegmentsResolve(nodes, Backhaul, back, placedB, backSegs);
      NodeMapHas(nodes, depot);
      RoutesConsistent(depot, lineSegs, backSegs, NodeMap(nodes), sol, dist);
    }
  }

  /** Built routes over segments that the lookup resolves make a consistent solution. */
  lemma RoutesConsistent(depot: int, lineSegs: seq<seq<Node>>, backSegs: seq<seq<Node>>,
                         m: map<int, Node>, sol: Solution, dist: Distance)
    requires depot in m && |sol.routes| == |lineSegs| == |backSegs|
    requires forall r | 0 <= r < |lineSegs| :: Resolves(lineSegs[r], m, Linehaul)
    requires forall r | 0 <= r < |backSegs| :: Resolves(backSegs[r], m, Backhaul)
    requires forall r | 0 <= r < |sol.routes| ::
               sol.routes[r] == Finished(depot, lineSegs[r], backSegs[r], dist)
    requires sol.cost == SumCosts(sol.routes)
    ensures Consistent(sol, m, dist)
  {
    forall r | 0 <= r < |sol.routes| ensures RouteConsistent(sol.routes[r], m, dist) {
      BuiltRouteConsistent(depot, lineSegs[r], backSegs[r], m, sol.routes[r], dist);
    }
  }

  /** Under unique ids, the lookup returns every node of every placed segment. */
  lemma SegmentsResolve(nodes: seq<Node>, k: NodeKind, order: seq<Node>, placed: nat, segs: seq<seq<Node>>)
    requires UniqueIds(nodes) && multiset(order) == multiset(OfKind(nodes, k))
    requires placed <= |order| && Bag(segs) == multiset(order[..placed])
    ensures forall r | 0 <= r < |segs| :: Resolves(segs[r], NodeMap(nodes), k)
  {
    forall r, x | 0 <= r < |segs| && x in segs[r]
      ensures x.id in NodeMap(nodes) && NodeMap(nodes)[x.id] == x && x.kind == k
    {
      PlacedAreNodes(nodes, k, order, placed, segs, r, x);
    }
  }

  /** The lookup returns every node of the sequence unchanged, and all of them have kind k. */
  predicate Resolves(ns: seq<Node>, m: map<int, Node>, k: NodeKind) {
    forall x | x in ns :: x.id in m && m[x.id] == x && x.kind == k
  }

  /** Every id is known, the interior up to position cut is linehauls and the rest backhauls. */
  predicate SplitKinds(nodes: seq<int>, m: map<int, Node>, cut: nat) {
    && Known(nodes, m)
    && forall i | 0 < i < |nodes| - 1 :: m[nodes[i]].kind == (if i <= cut then Linehaul else Backhaul)
  }

  lemma SplitKindsOrdered(nodes: seq<int>, m: map<int, Node>, cut: nat)
    requires SplitKinds(nodes, m, cut)
    ensures forall i | 0 < i < |nodes| - 1 :: m[nodes[i]].kind != Depot
    ensures Precedence(nodes, m)
  {
  }

  lemma BuiltKinds(depot: int, ls: seq<Node>, bs: seq<Node>, m: map<int, Node>)
    requires depot in m && Resolves(ls, m, Linehaul) && Resolves(bs, m, Backhaul)
    ensures SplitKinds(Built(depot, ls, bs).nodes, m, |ls|)
  {
    var nodes := Built(depot, ls, bs).nodes;
    forall i | 0 <= i < |nodes| ensures nodes[i] in m && (0 < i < |nodes| - 1 ==>
                                          m[nodes[i]].kind == (if i <= |ls| then Linehaul else Backhaul))
    {
      if i == 0 || i == |nodes| - 1 {
      } else if i <= |ls| {
        assert nodes[i] == ls[i - 1].id;
        assert ls[i - 1] in ls;
      } else {
        assert nodes[i] == bs[i - 1 - |ls|].id;
        assert bs[i - 1 - |ls|] in bs;
      }
    }
  }

  lemma BuiltLoads(depot: int, ls: seq<Node>, bs: seq<Node>, m: map<int, Node>)
    requires Resolves(ls, m, Linehaul) && Resolves(bs, m, Backhaul)
    ensures Interior(Built(depot, ls, bs).nodes) == Ids(ls) + Ids(bs)
    ensures Known(Ids(ls) + Ids(bs), m)
    ensures LoadOf(Ids(ls) + Ids(bs), m, Linehaul) == Demand(ls)
    ensures LoadOf(Ids(ls) + Ids(bs), m, Backhaul) == Demand(bs)
  {
    var a, b := Ids(ls), Ids(bs);
    assert Built(depot, ls, bs).nodes == [depot] + (a + b) + [depot];
    LoadOfNodes(ls, m, Linehaul, Linehaul);
    LoadOfNodes(ls, m, Backhaul, Linehaul);
    LoadOfNodes(bs, m, Linehaul, Backhaul);
    LoadOfNodes(bs, m, Backhaul, Backhaul);
    LoadOfConcat(a, b, m, Linehaul);
    LoadOfConcat(a, b, m, Backhaul);
  }

  /** A route of depot, linehauls, backhauls, depot whose nodes the lookup
      returns unchanged, with its loads settled and its cost computed, is consistent. */
  lemma BuiltRouteConsistent(depot: int, ls: seq<Node>, bs: seq<Node>, m: map<int, Node>,
                             route: Route, dist: Distance)
    requires depot in m && Resolves(ls, m, Linehaul) && Resolves(bs, m, Backhaul)
    requires route == Finished(depot, ls, bs, dist)
    ensures RouteConsistent(route, m, dist)
  {
    BuiltKinds(depot, ls, bs, m);
    SplitKindsOrdered(route.nodes, m, |ls|);
    BuiltLoads(depot, ls, bs, m);
  }
}
