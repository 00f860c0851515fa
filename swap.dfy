/** The swap move of the local search (swap_nodos): exchange two customers of
    the same kind between two different routes when the cached loads of both
    routes stay within the vehicle capacity. */
module SwapMove {
  import opened Instance
  import opened Routes
  import opened Evaluation

  datatype Option<T> = None | Some(value: T)

  /** The number of attempts the local search grants every move (the default
      argument of swap_nodos). */
  const MaxAttempts: int := 1000

  /** The random choices of one attempt: the kind to exchange (true for
      linehaul), the two route draws and the keys of the two candidate shuffles. */
  datatype SwapDraw = SwapDraw(linehaul: bool, route1: nat, route2: nat, keys1: seq<nat>, keys2: seq<nat>)

  function KindOf(linehaul: bool): NodeKind {
    if linehaul then Linehaul else Backhaul
  }

  // ---------------------------------------------------------------- choosing the routes

  /** The first route of the attempt: a raw draw reduced onto the n routes,
      the range 0 .. n - 1 of the uniform route distribution. */
  function FirstRoute(d: SwapDraw, n: nat): (a: nat)
    requires n >= 1
    ensures a < n
  {
    d.route1 % n
  }

  /** The second route: the source redraws until it differs from the first,
      so its outcome is one of the n - 1 other routes, which the second draw
      selects by its distance past the first, going round the end. */
  function SecondRoute(d: SwapDraw, n: nat): (b: nat)
    requires n >= 2
    ensures b < n && b != FirstRoute(d, n)
  {
    var x := FirstRoute(d, n) + 1 + d.route2 % (n - 1);
    if x < n then x else x - n
  }

  /** Every route other than the first is the outcome of some second draw, so
      the draws cover all outcomes of the redraw loop. */
  lemma SecondRouteReachesAll(d: SwapDraw, n: nat, b: nat)
    requires n >= 2 && b < n && b != FirstRoute(d, n)
    ensures SecondRoute(d.(route2 := if b > FirstRoute(d, n) then b - FirstRoute(d, n) - 1
                                     else b + n - FirstRoute(d, n) - 1), n) == b
  {
    var a := FirstRoute(d, n);
    var r2: nat := if b > a then b - a - 1 else b + n - a - 1;
    var d' := d.(route2 := r2);
    assert FirstRoute(d', n) == a;
    ModSmall(r2, n - 1);
    var x := a + 1 + r2;
    assert SecondRoute(d', n) == if x < n then x else x - n;
  }

  /** A draw already below the range is its own remainder. */
  lemma ModSmall(x: nat, k: nat)
    requires x < k
    ensures x % k == x
  {
  }

  // ---------------------------------------------------------------- candidates

  /** The positions in [1, hi) whose node has kind k, in increasing order. */
  function Positions(nodes: seq<int>, m: map<int, Node>, k: NodeKind, hi: nat): seq<nat>
    requires hi <= |nodes| && Known(nodes, m)
  {
    if hi <= 1 then []
    else Positions(nodes, m, k, hi - 1) + (if m[nodes[hi - 1]].kind == k then [hi - 1] else [])
  }

  /** Every candidate below hi is an inner position whose node has kind k, and
      the candidates come in increasing order. */
  lemma {:induction false} PositionsSound(nodes: seq<int>, m: map<int, Node>, k: NodeKind, hi: nat)
    requires hi <= |nodes| && Known(nodes, m)
    ensures forall x | 0 <= x < |Positions(nodes, m, k, hi)| ::
              1 <= Positions(nodes, m, k, hi)[x] < hi && m[nodes[Positions(nodes, m, k, hi)[x]]].kind == k
    ensures forall x, y | 0 <= x < y < |Positions(nodes, m, k, hi)| ::
              Positions(nodes, m, k, hi)[x] < Positions(nodes, m, k, hi)[y]
    decreases hi
  {
    if hi > 1 {
      PositionsSound(nodes, m, k, hi - 1);
      var c0, c := Positions(nodes, m, k, hi - 1), Positions(nodes, m, k, hi);
      assert c == c0 + (if m[nodes[hi - 1]].kind == k then [hi - 1] else []);
      forall x | 0 <= x < |c0| ensures c[x] == c0[x] && c[x] < hi - 1 {
      }
    }
  }

  /** Every inner position below hi whose node has kind k is a candidate. */
  lemma {:induction false} PositionsComplete(nodes: seq<int>, m: map<int, Node>, k: NodeKind, hi: nat, p: nat)
    requires hi <= |nodes| && Known(nodes, m)
    requires 1 <= p < hi && m[nodes[p]].kind == k
    ensures p in Positions(nodes, m, k, hi)
    decreases hi
  {
    if p < hi - 1 {
      PositionsComplete(nodes, m, k, hi - 1, p);
    }
  }

  /** Collects the inner positions of the route whose node has kind k (source
      lines 267-270). */
  method Candidates(nodes: seq<int>, m: map<int, Node>, k: NodeKind) returns (c: seq<nat>)
    requires |nodes| >= 1 && Known(nodes, m)
    ensures c == Positions(nodes, m, k, |nodes| - 1)
  {
    var hi := |nodes| - 1;
    c := [];
    var i := 1;
    while i < hi
      invariant 1 <= i && (i <= hi || hi <= 1)
      invariant c == Positions(nodes, m, k, if i <= hi then i else hi)
    {
      if m[nodes[i]].kind == k {
        c := c + [i];
      }
      i := i + 1;
    }
  }

  /** The candidates in drawn order: each key picks, among the positions not
      yet taken, the next one (a key beyond their number picks the first). */
  function Shuffle(s: seq<nat>, keys: seq<nat>): (r: seq<nat>)
    ensures |r| == |s|
    decreases |s|
  {
    if |s| == 0 then []
    else
      var k := if |keys| > 0 && keys[0] < |s| then keys[0] else 0;
      var rest := s[..k] + s[k + 1..];
      assert s == s[..k] + [s[k]] + s[k + 1..];
      [s[k]] + Shuffle(rest, if |keys| == 0 then [] else keys[1..])
  }

  /** The shuffle is a permutation of the candidates. */
  lemma {:induction false} ShufflePermutes(s: seq<nat>, keys: seq<nat>)
    ensures multiset(Shuffle(s, keys)) == multiset(s)
    decreases |s|
  {
    if |s| > 0 {
      var k := if |keys| > 0 && keys[0] < |s| then keys[0] else 0;
      var rest, more := s[..k] + s[k + 1..], if |keys| == 0 then [] else keys[1..];
      assert Shuffle(s, keys) == [s[k]] + Shuffle(rest, more);
      ShufflePermutes(rest, more);
      TakeOut(s, k);
    }
  }

  /** Taking position k out of a sequence takes one s[k] out of its bag. */
  lemma TakeOut(s: seq<nat>, k: nat)
    requires k < |s|
    ensures multiset(s) == multiset([s[k]]) + multiset(s[..k] + s[k + 1..])
  {
    var a, b := s[..k], s[k + 1..];
    assert s == a + [s[k]] + b;
    BagFront(multiset([s[k]]), multiset(a), multiset(b));
  }

  lemma BagFront(x: multiset<nat>, a: multiset<nat>, b: multiset<nat>)
    ensures x + a + b == a + x + b
  {
    forall z ensures (x + a + b)[z] == (a + x + b)[z] {
    }
  }

  /** Every reordering of the candidates is drawn by some keys, so taking the
      keys as input loses none of the shuffle's outcomes. */
  lemma {:induction false} ShuffleReachesAll(s: seq<nat>, p: seq<nat>) returns (keys: seq<nat>)
    requires multiset(p) == multiset(s)
    ensures Shuffle(s, keys) == p
    decreases |s|
  {
    if |s| == 0 {
      keys := [];
      assert |p| == |multiset(p)| == 0;
    } else {
      assert |p| == |multiset(p)| == |multiset(s)| == |s|;
      assert p[0] in multiset(s);
      var k: nat :| k < |s| && s[k] == p[0];
      BagTail(s, p, k);
      var more := ShuffleReachesAll(s[..k] + s[k + 1..], p[1..]);
      keys := [k] + more;
      ShuffleHead(s, k, more);
      assert p == [p[0]] + p[1..];
    }
  }

  /** Taking the same value out of two equal bags leaves equal bags. */
  lemma BagTail(s: seq<nat>, p: seq<nat>, k: nat)
    requires multiset(p) == multiset(s) && p != [] && k < |s| && s[k] == p[0]
    ensures multiset(p[1..]) == multiset(s[..k] + s[k + 1..])
  {
    var rest := s[..k] + s[k + 1..];
    assert s == s[..k] + [s[k]] + s[k + 1..];
    assert p == [p[0]] + p[1..];
    assert multiset(p) == multiset{p[0]} + multiset(p[1..]);
    assert multiset(s) == multiset{s[k]} + multiset(rest);
    BagCancel(p[0], multiset(p[1..]), multiset(rest));
  }

  /** The same value added to two bags with equal results came from equal bags. */
  lemma BagCancel(v: nat, x: multiset<nat>, y: multiset<nat>)
    requires multiset{v} + x == multiset{v} + y
    ensures x == y
  {
    forall z ensures x[z] == y[z] {
      assert (multiset{v} + x)[z] == (multiset{v} + y)[z];
    }
  }

  /** A first key k below the length takes position k first. */
  lemma ShuffleHead(s: seq<nat>, k: nat, more: seq<nat>)
    requires k < |s|
    ensures Shuffle(s, [k] + more) == [s[k]] + Shuffle(s[..k] + s[k + 1..], more)
  {
    var keys := [k] + more;
    assert keys[0] == k && keys[1..] == more;
  }

  // ---------------------------------------------------------------- the capacity check

  /** The four cached loads of the two routes after an exchange of x (on the
      first route) with y (on the second). */
  datatype Loads = Loads(delivered1: int, delivered2: int, picked1: int, picked2: int)

  function LoadsAfter(ra: Route, rb: Route, x: Node, y: Node, linehaul: bool): Loads {
    if linehaul then
      Loads(ra.delivered - x.demand + y.demand, rb.delivered - y.demand + x.demand, ra.picked, rb.picked)
    else
      Loads(ra.delivered, rb.delivered, ra.picked - x.demand + y.demand, rb.picked - y.demand + x.demand)
  }

  /** The capacity check of source lines 298-299: all four loads, changed or not. */
  predicate FitsIn(l: Loads, capacity: int) {
    l.delivered1 <= capacity && l.delivered2 <= capacity && l.picked1 <= capacity && l.picked2 <= capacity
  }

  /** Every candidate is an inner position of the route whose id is known and
      whose node has kind k. */
  predicate Inner(r: Route, m: map<int, Node>, k: NodeKind, c: seq<nat>) {
    forall p | 0 <= p < |c| :: 0 < c[p] < |r.nodes| - 1 && r.nodes[c[p]] in m && m[r.nodes[c[p]]].kind == k
  }

  predicate PairFits(ra: Route, rb: Route, m: map<int, Node>, capacity: int, linehaul: bool, i: nat, j: nat)
    requires i < |ra.nodes| && j < |rb.nodes| && ra.nodes[i] in m && rb.nodes[j] in m
  {
    FitsIn(LoadsAfter(ra, rb, m[ra.nodes[i]], m[rb.nodes[j]], linehaul), capacity)
  }

  /** The first candidate of the second route, from position q on, that fits
      with candidate p of the first route. */
  function FirstInRow(ra: Route, rb: Route, m: map<int, Node>, capacity: int, linehaul: bool,
                      c1: seq<nat>, c2: seq<nat>, p: nat, q: nat): (r: Option<nat>)
    requires Inner(ra, m, KindOf(linehaul), c1) && Inner(rb, m, KindOf(linehaul), c2) && p < |c1| && q <= |c2|
    ensures r.Some? ==> q <= r.value < |c2|
    decreases |c2| - q
  {
    if q == |c2| then None
    else if PairFits(ra, rb, m, capacity, linehaul, c1[p], c2[q]) then Some(q)
    else FirstInRow(ra, rb, m, capacity, linehaul, c1, c2, p, q + 1)
  }

  /** FirstInRow finds a fitting candidate exactly when one exists, and no
      earlier one fits. */
  lemma {:induction false} FirstInRowSpec(ra: Route, rb: Route, m: map<int, Node>, capacity: int, linehaul: bool,
                                          c1: seq<nat>, c2: seq<nat>, p: nat, q: nat)
    requires Inner(ra, m, KindOf(linehaul), c1) && Inner(rb, m, KindOf(linehaul), c2) && p < |c1| && q <= |c2|
    ensures var r := FirstInRow(ra, rb, m, capacity, linehaul, c1, c2, p, q);
            && (r.Some? ==> PairFits(ra, rb, m, capacity, linehaul, c1[p], c2[r.value]))
            && (r.Some? ==> forall q' | q <= q' < r.value :: !PairFits(ra, rb, m, capacity, linehaul, c1[p], c2[q']))
            && (r.None? ==> forall q' | q <= q' < |c2| :: !PairFits(ra, rb, m, capacity, linehaul, c1[p], c2[q']))
    decreases |c2| - q
  {
    if q < |c2| && !PairFits(ra, rb, m, capacity, linehaul, c1[p], c2[q]) {
      FirstInRowSpec(ra, rb, m, capacity, linehaul, c1, c2, p, q + 1);
    }
  }

  /** The first fitting pair of candidate positions, from position p of the
      first list on, in the order of the nested scan (source lines 277-321). */
  function FirstFit(ra: Route, rb: Route, m: map<int, Node>, capacity: int, linehaul: bool,
                    c1: seq<nat>, c2: seq<nat>, p: nat): (r: Option<(nat, nat)>)
    requires Inner(ra, m, KindOf(linehaul), c1) && Inner(rb, m, KindOf(linehaul), c2) && p <= |c1|
    ensures r.Some? ==> p <= r.value.0 < |c1| && r.value.1 < |c2|
    decreases |c1| - p
  {
    if p == |c1| then None
    else match FirstInRow(ra, rb, m, capacity, linehaul, c1, c2, p, 0)
      case Some(q) => Some((p, q))
      case None => FirstFit(ra, rb, m, capacity, linehaul, c1, c2, p + 1)
  }

  /** FirstFit finds a fitting pair exactly when one exists, and it is the
      first in the scan order: no pair with an earlier first position fits,
      and no earlier partner of its first position does. */
  lemma {:induction false} FirstFitSpec(ra: Route, rb: Route, m: map<int, Node>, capacity: int, linehaul: bool,
                                        c1: seq<nat>, c2: seq<nat>, p: nat)
    requires Inner(ra, m, KindOf(linehaul), c1) && Inner(rb, m, KindOf(linehaul), c2) && p <= |c1|
    ensures var r := FirstFit(ra, rb, m, capacity, linehaul, c1, c2, p);
            && (r.Some? ==> PairFits(ra, rb, m, capacity, linehaul, c1[r.value.0], c2[r.value.1]))
            && (r.Some? ==> forall p', q' | p <= p' < r.value.0 && 0 <= q' < |c2| ::
                              !PairFits(ra, rb, m, capacity, linehaul, c1[p'], c2[q']))
            && (r.Some? ==> forall q' | 0 <= q' < r.value.1 ::
                              !PairFits(ra, rb, m, capacity, linehaul, c1[r.value.0], c2[q']))
            && (r.None? ==> forall p', q' | p <= p' < |c1| && 0 <= q' < |c2| ::
                              !PairFits(ra, rb, m, capacity, linehaul, c1[p'], c2[q']))
    decreases |c1| - p
  {
    if p < |c1| {
      FirstInRowSpec(ra, rb, m, capacity, linehaul, c1, c2, p, 0);
      if FirstInRow(ra, rb, m, capacity, linehaul, c1, c2, p, 0).None? {
        FirstFitSpec(ra, rb, m, capacity, linehaul, c1, c2, p + 1);
      }
    }
  }

  /** The nested scan over both candidate lists; it stops at the first pair
      that passes the capacity check and reports its positions in the lists. */
  method ScanPairs(ra: Route, rb: Route, m: map<int, Node>, capacity: int, linehaul: bool,
                   c1: seq<nat>, c2: seq<nat>)
    returns (found: bool, p: nat, q: nat)
    requires Inner(ra, m, KindOf(linehaul), c1) && Inner(rb, m, KindOf(linehaul), c2)
    ensures found <==> FirstFit(ra, rb, m, capacity, linehaul, c1, c2, 0).Some?
    ensures found ==> FirstFit(ra, rb, m, capacity, linehaul, c1, c2, 0) == Some((p, q))
  {
    p := 0;
    while p < |c1|
      invariant p <= |c1|
      invariant FirstFit(ra, rb, m, capacity, linehaul, c1, c2, p) == FirstFit(ra, rb, m, capacity, linehaul, c1, c2, 0)
    {
      var x := m[ra.nodes[c1[p]]];
      q := 0;
      while q < |c2|
        invariant q <= |c2|
        invariant FirstInRow(ra, rb, m, capacity, linehaul, c1, c2, p, q)
                  == FirstInRow(ra, rb, m, capacity, linehaul, c1, c2, p, 0)
      {
        var y := m[rb.nodes[c2[q]]];
        if FitsIn(LoadsAfter(ra, rb, x, y, linehaul), capacity) {
          found := true;
          return;
        }
        q := q + 1;
      }
      p := p + 1;
    }
    found, q := false, 0;
  }

  // ---------------------------------------------------------------- the exchange

  /** The solution after exchanging position i of route a with position j of
      route b: ids swapped, the loads of the capacity check cached, both route
      costs recomputed and the total re-summed (source lines 301-316). */
  function Exchange(sol: Solution, m: map<int, Node>, dist: Distance, linehaul: bool,
                    a: nat, b: nat, i: nat, j: nat): Solution
    requires a < |sol.routes| && b < |sol.routes| && a != b
    requires i < |sol.routes[a].nodes| && j < |sol.routes[b].nodes|
    requires sol.routes[a].nodes[i] in m && sol.routes[b].nodes[j] in m
  {
    var ra, rb := sol.routes[a], sol.routes[b];
    var x, y := ra.nodes[i], rb.nodes[j];
    var l := LoadsAfter(ra, rb, m[x], m[y], linehaul);
    var na, nb := ra.nodes[i := y], rb.nodes[j := x];
    var rs := sol.routes[a := Route(na, l.delivered1 + l.picked1, l.delivered1, l.picked1, PathCost(na, dist))]
                        [b := Route(nb, l.delivered2 + l.picked2, l.delivered2, l.picked2, PathCost(nb, dist))];
    Solution(rs, SumCosts(rs))
  }

  /** Carries out the exchange on the solution, field by field as the source does. */
  method ApplyExchange(sol: Solution, m: map<int, Node>, dist: Distance, linehaul: bool,
                       a: nat, b: nat, i: nat, j: nat)
    returns (sol': Solution)
    requires a < |sol.routes| && b < |sol.routes| && a != b
    requires i < |sol.routes[a].nodes| && j < |sol.routes[b].nodes|
    requires sol.routes[a].nodes[i] in m && sol.routes[b].nodes[j] in m
    ensures sol' == Exchange(sol, m, dist, linehaul, a, b, i, j)
  {
    var ra, rb := sol.routes[a], sol.routes[b];
    var x, y := ra.nodes[i], rb.nodes[j];
    var l := LoadsAfter(ra, rb, m[x], m[y], linehaul);
    ra := ra.(nodes := ra.nodes[i := y]);
    rb := rb.(nodes := rb.nodes[j := x]);
    ra := ra.(delivered := l.delivered1, picked := l.picked1, used := l.delivered1 + l.picked1);
    rb := rb.(delivered := l.delivered2, picked := l.picked2, used := l.delivered2 + l.picked2);
    var ca := RouteCost(ra.nodes, dist);
    var cb := RouteCost(rb.nodes, dist);
    ra, rb := ra.(cost := ca), rb.(cost := cb);
    var rs := sol.routes[a := ra][b := rb];
    var total := SumRouteCosts(rs);
    sol' := Solution(rs, total);
  }

  // ---------------------------------------------------------------- one attempt

  /** What the routes of an attempt need: at least two of them, none empty,
      every id known (the source's lookups would throw otherwise). */
  predicate Movable(sol: Solution, m: map<int, Node>) {
    |sol.routes| >= 2 && Addressable(sol, m)
  }

  /** The collected candidates are inner positions of the route of kind k. */
  lemma PositionsInner(r: Route, m: map<int, Node>, k: NodeKind)
    requires |r.nodes| >= 1 && Known(r.nodes, m)
    ensures Inner(r, m, k, Positions(r.nodes, m, k, |r.nodes| - 1))
  {
    PositionsSound(r.nodes, m, k, |r.nodes| - 1);
  }

  /** Shuffling keeps the candidates inner positions of kind k. */
  lemma ShuffleInner(r: Route, m: map<int, Node>, k: NodeKind, c: seq<nat>, keys: seq<nat>)
    requires Inner(r, m, k, c)
    ensures Inner(r, m, k, Shuffle(c, keys))
  {
    var c' := Shuffle(c, keys);
    ShufflePermutes(c, keys);
    forall p | 0 <= p < |c'|
      ensures 0 < c'[p] < |r.nodes| - 1 && r.nodes[c'[p]] in m && m[r.nodes[c'[p]]].kind == k
    {
      assert c'[p] in multiset(c');
      assert c'[p] in c;
    }
  }

  /** One attempt of the move (one round of the loop at source lines 255-322):
      the exchange of the first fitting pair, or None when the drawn routes
      have no candidates of the drawn kind or no pair fits. */
  function Attempt(sol: Solution, m: map<int, Node>, capacity: int, dist: Distance, d: SwapDraw): Option<Solution>
    requires Movable(sol, m)
  {
    AttemptOn(sol, m, capacity, dist, d.linehaul, FirstRoute(d, |sol.routes|), SecondRoute(d, |sol.routes|),
              d.keys1, d.keys2)
  }

  /** An attempt on the drawn routes a and b with the drawn kind and shuffle keys. */
  function AttemptOn(sol: Solution, m: map<int, Node>, capacity: int, dist: Distance, linehaul: bool,
                     a: nat, b: nat, keys1: seq<nat>, keys2: seq<nat>): Option<Solution>
    requires Addressable(sol, m) && a < |sol.routes| && b < |sol.routes| && a != b
  {
    assert sol.routes[a] in sol.routes && sol.routes[b] in sol.routes;
    var k := KindOf(linehaul);
    var p1 := Positions(sol.routes[a].nodes, m, k, |sol.routes[a].nodes| - 1);
    var p2 := Positions(sol.routes[b].nodes, m, k, |sol.routes[b].nodes| - 1);
    if |p1| == 0 || |p2| == 0 then None
    else
      PositionsInner(sol.routes[a], m, k);
      PositionsInner(sol.routes[b], m, k);
      PickShuffled(sol, m, capacity, dist, linehaul, a, b, p1, p2, keys1, keys2)
  }

  /** The pick over the two candidate lists in their drawn order. */
  function PickShuffled(sol: Solution, m: map<int, Node>, capacity: int, dist: Distance, linehaul: bool,
                        a: nat, b: nat, p1: seq<nat>, p2: seq<nat>, keys1: seq<nat>, keys2: seq<nat>): Option<Solution>
    requires a < |sol.routes| && b < |sol.routes| && a != b
    requires Inner(sol.routes[a], m, KindOf(linehaul), p1) && Inner(sol.routes[b], m, KindOf(linehaul), p2)
  {
    ShuffleInner(sol.routes[a], m, KindOf(linehaul), p1, keys1);
    ShuffleInner(sol.routes[b], m, KindOf(linehaul), p2, keys2);
    Pick(sol, m, capacity, dist, linehaul, a, b, Shuffle(p1, keys1), Shuffle(p2, keys2))
  }

  /** Without candidates on one of the routes the attempt fails. */
  lemma AttemptOnNone(sol: Solution, m: map<int, Node>, capacity: int, dist: Distance, linehaul: bool,
                      a: nat, b: nat, keys1: seq<nat>, keys2: seq<nat>, p1: seq<nat>, p2: seq<nat>)
    requires Addressable(sol, m) && a < |sol.routes| && b < |sol.routes| && a != b
    requires sol.routes[a] in sol.routes && sol.routes[b] in sol.routes
    requires p1 == Positions(sol.routes[a].nodes, m, KindOf(linehaul), |sol.routes[a].nodes| - 1)
    requires p2 == Positions(sol.routes[b].nodes, m, KindOf(linehaul), |sol.routes[b].nodes| - 1)
    ensures |p1| == 0 || |p2| == 0 ==> AttemptOn(sol, m, capacity, dist, linehaul, a, b, keys1, keys2) == None
  {
  }

  /** With candidates on both routes the attempt is the pick over their shuffles. */
  lemma AttemptOnPick(sol: Solution, m: map<int, Node>, capacity: int, dist: Distance, linehaul: bool,
                      a: nat, b: nat, keys1: seq<nat>, keys2: seq<nat>, p1: seq<nat>, p2: seq<nat>)
    requires Addressable(sol, m) && a < |sol.routes| && b < |sol.routes| && a != b
    requires sol.routes[a] in sol.routes && sol.routes[b] in sol.routes
    requires p1 == Positions(sol.routes[a].nodes, m, KindOf(linehaul), |sol.routes[a].nodes| - 1)
    requires p2 == Positions(sol.routes[b].nodes, m, KindOf(linehaul), |sol.routes[b].nodes| - 1)
    requires |p1| > 0 && |p2| > 0
    requires Inner(sol.routes[a], m, KindOf(linehaul), p1) && Inner(sol.routes[b], m, KindOf(linehaul), p2)
    ensures AttemptOn(sol, m, capacity, dist, linehaul, a, b, keys1, keys2)
         == PickShuffled(sol, m, capacity, dist, linehaul, a, b, p1, p2, keys1, keys2)
  {
  }

  /** The exchange of the first fitting pair of the shuffled candidates, if any. */
  function Pick(sol: Solution, m: map<int, Node>, capacity: int, dist: Distance, linehaul: bool,
                a: nat, b: nat, c1: seq<nat>, c2: seq<nat>): Option<Solution>
    requires a < |sol.routes| && b < |sol.routes| && a != b
    requires Inner(sol.routes[a], m, KindOf(linehaul), c1) && Inner(sol.routes[b], m, KindOf(linehaul), c2)
  {
    match FirstFit(sol.routes[a], sol.routes[b], m, capacity, linehaul, c1, c2, 0)
    case None => None
    case Some((p, q)) => Some(Exchange(sol, m, dist, linehaul, a, b, c1[p], c2[q]))
  }

  /** Runs one attempt: draws the routes, then works on them. */
  method TryAttempt(sol: Solution, m: map<int, Node>, capacity: int, dist: Distance, d: SwapDraw)
    returns (sol': Solution, ok: bool)
    requires Movable(sol, m)
    ensures ok ==> Attempt(sol, m, capacity, dist, d) == Some(sol')
    ensures !ok ==> Attempt(sol, m, capacity, dist, d) == None && sol' == sol
  {
    var n := |sol.routes|;
    sol', ok := TryAttemptOn(sol, m, capacity, dist, d.linehaul, FirstRoute(d, n), SecondRoute(d, n),
                             d.keys1, d.keys2);
  }

  /** Collects and shuffles the candidates of the two routes and scans them. */
  method TryAttemptOn(sol: Solution, m: map<int, Node>, capacity: int, dist: Distance, linehaul: bool,
                      a: nat, b: nat, keys1: seq<nat>, keys2: seq<nat>)
    returns (sol': Solution, ok: bool)
    requires Addressable(sol, m) && a < |sol.routes| && b < |sol.routes| && a != b
    ensures ok ==> AttemptOn(sol, m, capacity, dist, linehaul, a, b, keys1, keys2) == Some(sol')
    ensures !ok ==> AttemptOn(sol, m, capacity, dist, linehaul, a, b, keys1, keys2) == None && sol' == sol
  {
    var ra, rb := sol.routes[a], sol.routes[b];
    assert ra in sol.routes && rb in sol.routes;
    var k := KindOf(linehaul);
    var p1 := Candidates(ra.nodes, m, k);
    var p2 := Candidates(rb.nodes, m, k);
    if |p1| == 0 || |p2| == 0 {
      AttemptOnNone(sol, m, capacity, dist, linehaul, a, b, keys1, keys2, p1, p2);
      sol', ok := sol, false;
    } else {
      PositionsInner(ra, m, k);
      PositionsInner(rb, m, k);
      AttemptOnPick(sol, m, capacity, dist, linehaul, a, b, keys1, keys2, p1, p2);
      sol', ok := TryPickShuffled(sol, m, capacity, dist, linehaul, a, b, p1, p2, keys1, keys2);
    }
  }

  /** Shuffles the two candidate lists and scans them. */
  method TryPickShuffled(sol: Solution, m: map<int, Node>, capacity: int, dist: Distance, linehaul: bool,
                         a: nat, b: nat, p1: seq<nat>, p2: seq<nat>, keys1: seq<nat>, keys2: seq<nat>)
    returns (sol': Solution, ok: bool)
    requires a < |sol.routes| && b < |sol.routes| && a != b
    requires Inner(sol.routes[a], m, KindOf(linehaul), p1) && Inner(sol.routes[b], m, KindOf(linehaul), p2)
    ensures ok ==> PickShuffled(sol, m, capacity, dist, linehaul, a, b, p1, p2, keys1, keys2) == Some(sol')
    ensures !ok ==> PickShuffled(sol, m, capacity, dist, linehaul, a, b, p1, p2, keys1, keys2) == None && sol' == sol
  {
    ShuffleInner(sol.routes[a], m, KindOf(linehaul), p1, keys1);
    ShuffleInner(sol.routes[b], m, KindOf(linehaul), p2, keys2);
    sol', ok := TryPick(sol, m, capacity, dist, linehaul, a, b, Shuffle(p1, keys1), Shuffle(p2, keys2));
  }

  /** Scans the shuffled candidates and carries out the first fitting exchange. */
  method TryPick(sol: Solution, m: map<int, Node>, capacity: int, dist: Distance, linehaul: bool,
                 a: nat, b: nat, c1: seq<nat>, c2: seq<nat>)
    returns (sol': Solution, ok: bool)
    requires a < |sol.routes| && b < |sol.routes| && a != b
    requires Inner(sol.routes[a], m, KindOf(linehaul), c1) && Inner(sol.routes[b], m, KindOf(linehaul), c2)
    ensures ok ==> Pick(sol, m, capacity, dist, linehaul, a, b, c1, c2) == Some(sol')
    ensures !ok ==> Pick(sol, m, capacity, dist, linehaul, a, b, c1, c2) == None && sol' == sol
  {
    var found, p, q := ScanPairs(sol.routes[a], sol.routes[b], m, capacity, linehaul, c1, c2);
    if !found {
      return sol, false;
    }
    sol' := ApplyExchange(sol, m, dist, linehaul, a, b, c1[p], c2[q]);
    ok := true;
  }

  // ---------------------------------------------------------------- the whole move

  /** The first success among the outcomes of attempts t, t + 1, ... below n,
      or None when all of them fail. */
  function FirstSuccess(outcome: nat -> Option<Solution>, t: nat, n: int): Option<Solution>
    decreases n - t
  {
    if t >= n then None
    else if outcome(t).Some? then outcome(t)
    else FirstSuccess(outcome, t + 1, n)
  }

  /** The search fails exactly when every outcome from t on is a failure, and
      a success is the outcome of one of these attempts. */
  lemma {:induction false} FirstSuccessSpec(outcome: nat -> Option<Solution>, t: nat, n: int)
    ensures FirstSuccess(outcome, t, n).None? <==> forall u | t <= u < n :: outcome(u).None?
    ensures FirstSuccess(outcome, t, n).Some? ==>
              exists u | t <= u < n :: outcome(u) == FirstSuccess(outcome, t, n)
    decreases n - t
  {
    if t < n {
      FirstSuccessSpec(outcome, t + 1, n);
    }
  }

  /** The outcome of attempt number u, made with the draws draw(u). */
  function Outcomes(sol: Solution, m: map<int, Node>, capacity: int, dist: Distance,
                    draw: nat -> SwapDraw): nat -> Option<Solution>
    requires Movable(sol, m)
  {
    (u: nat) => Attempt(sol, m, capacity, dist, draw(u))
  }

  /** The move fails exactly when all maxAttempts attempts fail; a success is
      the outcome of one of them. */
  lemma SwapSpec(sol: Solution, m: map<int, Node>, capacity: int, dist: Distance,
                 maxAttempts: int, draw: nat -> SwapDraw)
    requires Movable(sol, m)
    ensures FirstSuccess(Outcomes(sol, m, capacity, dist, draw), 0, maxAttempts).None?
        <==> forall u | 0 <= u < maxAttempts :: Attempt(sol, m, capacity, dist, draw(u)).None?
    ensures FirstSuccess(Outcomes(sol, m, capacity, dist, draw), 0, maxAttempts).Some? ==>
              exists u | 0 <= u < maxAttempts ::
                Attempt(sol, m, capacity, dist, draw(u))
                == FirstSuccess(Outcomes(sol, m, capacity, dist, draw), 0, maxAttempts)
  {
    var outcome := Outcomes(sol, m, capacity, dist, draw);
    FirstSuccessSpec(outcome, 0, maxAttempts);
    forall u | 0 <= u < maxAttempts ensures outcome(u) == Attempt(sol, m, capacity, dist, draw(u)) {
    }
  }

  /** The swap move (swap_nodos): up to maxAttempts attempts, each with the
      draws draw(t); on success the solution holds the exchange, otherwise it
      is returned unchanged. */
  method Swap(sol: Solution, m: map<int, Node>, capacity: int, dist: Distance,
              maxAttempts: int, draw: nat -> SwapDraw)
    returns (sol': Solution, ok: bool)
    requires Movable(sol, m)
    ensures ok ==> FirstSuccess(Outcomes(sol, m, capacity, dist, draw), 0, maxAttempts) == Some(sol')
    ensures !ok ==> FirstSuccess(Outcomes(sol, m, capacity, dist, draw), 0, maxAttempts) == None && sol' == sol
    ensures ok ==> Exchanged(sol, sol', m, capacity, dist) && Preserves(sol, sol', m, capacity, dist)
  {
    ghost var outcome := Outcomes(sol, m, capacity, dist, draw);
    var t: nat := 0;
    while t < maxAttempts
      invariant FirstSuccess(outcome, t, maxAttempts) == FirstSuccess(outcome, 0, maxAttempts)
      decreases maxAttempts - t
    {
      sol', ok := TryAttempt(sol, m, capacity, dist, draw(t));
      assert outcome(t) == Attempt(sol, m, capacity, dist, draw(t));
      if ok {
        AttemptExchanged(sol, m, capacity, dist, draw(t));
        AttemptPreserves(sol, m, capacity, dist, draw(t));
        return;
      }
      t := t + 1;
    }
    sol', ok := sol, false;
  }

  /** A successful move is one exchange the move can make; it keeps
      everything Preserves names, so the result can be moved again. */
  lemma SwapPreserves(sol: Solution, m: map<int, Node>, capacity: int, dist: Distance,
                      maxAttempts: int, draw: nat -> SwapDraw)
    requires Movable(sol, m)
    requires FirstSuccess(Outcomes(sol, m, capacity, dist, draw), 0, maxAttempts).Some?
    ensures Preserves(sol, FirstSuccess(Outcomes(sol, m, capacity, dist, draw), 0, maxAttempts).value,
                      m, capacity, dist)
    ensures Movable(FirstSuccess(Outcomes(sol, m, capacity, dist, draw), 0, maxAttempts).value, m)
    ensures Exchanged(sol, FirstSuccess(Outcomes(sol, m, capacity, dist, draw), 0, maxAttempts).value,
                      m, capacity, dist)
  {
    SwapSpec(sol, m, capacity, dist, maxAttempts, draw);
    var u :| 0 <= u < maxAttempts &&
             Attempt(sol, m, capacity, dist, draw(u))
             == FirstSuccess(Outcomes(sol, m, capacity, dist, draw), 0, maxAttempts);
    AttemptPreserves(sol, m, capacity, dist, draw(u));
    AttemptExchanged(sol, m, capacity, dist, draw(u));
  }

  // ---------------------------------------------------------------- what the move keeps

  /** The facts about one exchange that the preservation lemmas share. */
  predicate ExchangeReady(sol: Solution, m: map<int, Node>, linehaul: bool, a: nat, b: nat, i: nat, j: nat) {
    && Addressable(sol, m)
    && a < |sol.routes| && b < |sol.routes| && a != b
    && 0 < i < |sol.routes[a].nodes| - 1 && 0 < j < |sol.routes[b].nodes| - 1
    && sol.routes[a].nodes[i] in m && sol.routes[b].nodes[j] in m
    && m[sol.routes[a].nodes[i]].kind == KindOf(linehaul)
    && m[sol.routes[b].nodes[j]].kind == KindOf(linehaul)
  }

  /** An exchange keeps the shape of every route and the addressability. */
  lemma ExchangeShape(sol: Solution, m: map<int, Node>, dist: Distance, linehaul: bool,
                      a: nat, b: nat, i: nat, j: nat)
    requires ExchangeReady(sol, m, linehaul, a, b, i, j)
    ensures SameShape(sol, Exchange(sol, m, dist, linehaul, a, b, i, j), m)
    ensures Addressable(Exchange(sol, m, dist, linehaul, a, b, i, j), m)
  {
    var s' := Exchange(sol, m, dist, linehaul, a, b, i, j);
    forall r | 0 <= r < |sol.routes| ensures SameRouteShape(sol.routes[r].nodes, s'.routes[r].nodes, m)
                                  && |s'.routes[r].nodes| >= 1 && Known(s'.routes[r].nodes, m) {
      assert sol.routes[r] in sol.routes;
    }
    forall r | r in s'.routes ensures |r.nodes| >= 1 && Known(r.nodes, m) {
      var k :| 0 <= k < |s'.routes| && s'.routes[k] == r;
    }
  }

  lemma BagSwap(s: seq<int>, i: nat, y: int)
    requires i < |s|
    ensures multiset(s[i := y]) + multiset{s[i]} == multiset(s) + multiset{y}
  {
    assert s == s[..i] + [s[i]] + s[i + 1..];
    assert s[i := y] == s[..i] + [y] + s[i + 1..];
  }

  /** An exchange keeps the multiset of all ids: no node is lost or duplicated. */
  lemma ExchangeIds(sol: Solution, m: map<int, Node>, dist: Distance, linehaul: bool,
                    a: nat, b: nat, i: nat, j: nat)
    requires ExchangeReady(sol, m, linehaul, a, b, i, j)
    ensures multiset(AllIds(Exchange(sol, m, dist, linehaul, a, b, i, j).routes)) == multiset(AllIds(sol.routes))
  {
    var s' := Exchange(sol, m, dist, linehaul, a, b, i, j);
    assert s'.routes == sol.routes[a := s'.routes[a]][b := s'.routes[b]];
    CrossIds(sol.routes, a, b, i, j, s'.routes[a], s'.routes[b]);
  }

  /** Replacing two routes by copies with one node exchanged between them
      keeps the multiset of all ids. */
  lemma CrossIds(rs: seq<Route>, a: nat, b: nat, i: nat, j: nat, ra': Route, rb': Route)
    requires a < |rs| && b < |rs| && a != b && i < |rs[a].nodes| && j < |rs[b].nodes|
    requires ra'.nodes == rs[a].nodes[i := rs[b].nodes[j]]
    requires rb'.nodes == rs[b].nodes[j := rs[a].nodes[i]]
    ensures multiset(AllIds(rs[a := ra'][b := rb'])) == multiset(AllIds(rs))
  {
    var x, y := rs[a].nodes[i], rs[b].nodes[j];
    var mid := rs[a := ra'];
    AllIdsUpdate(rs, a, ra');
    AllIdsUpdate(mid, b, rb');
    assert mid[b] == rs[b];
    BagSwap(rs[a].nodes, i, y);
    BagSwap(rs[b].nodes, j, x);
    BagBalance(multiset(AllIds(rs)), multiset(AllIds(mid)), multiset(AllIds(mid[b := rb'])),
               multiset(rs[a].nodes), multiset(rs[b].nodes), multiset(ra'.nodes), multiset(rb'.nodes),
               multiset{x}, multiset{y});
  }

  /** The bag balance behind an exchange: what route a gives up route b
      receives, and the other way round. */
  lemma BagBalance(all: multiset<int>, mid: multiset<int>, all': multiset<int>,
                   A: multiset<int>, B: multiset<int>, A': multiset<int>, B': multiset<int>,
                   X: multiset<int>, Y: multiset<int>)
    requires mid + A == all + A' && all' + B == mid + B'
    requires A' + X == A + Y && B' + Y == B + X
    ensures all' == all
  {
    forall z ensures all'[z] == all[z] {
      assert (mid + A)[z] == (all + A')[z] && (all' + B)[z] == (mid + B')[z];
      assert (A' + X)[z] == (A + Y)[z] && (B' + Y)[z] == (B + X)[z];
    }
  }

  /** The interior of a route with one inner position overwritten. */
  lemma InteriorReplace(s: seq<int>, i: nat, y: int)
    requires 0 < i < |s| - 1
    ensures Interior(s[i := y]) == Interior(s)[i - 1 := y]
  {
  }

  /** Overwriting an inner node with one of the same kind k moves the load of
      kind k by the demand difference and keeps every other load. */
  lemma ReplaceLoads(s: seq<int>, i: nat, y: int, m: map<int, Node>, k: NodeKind)
    requires 0 < i < |s| - 1 && Known(s, m) && y in m
    requires m[s[i]].kind == k && m[y].kind == k
    ensures Known(Interior(s[i := y]), m)
    ensures LoadOf(Interior(s[i := y]), m, k) == LoadOf(Interior(s), m, k) - m[s[i]].demand + m[y].demand
    ensures forall k' | k' != k :: LoadOf(Interior(s[i := y]), m, k') == LoadOf(Interior(s), m, k')
  {
    InteriorReplace(s, i, y);
    assert Known(Interior(s), m) by {
      forall p | 0 <= p < |Interior(s)| ensures Interior(s)[p] in m {
        assert Interior(s)[p] == s[p + 1];
      }
    }
    assert Interior(s)[i - 1] == s[i];
    LoadOfReplace(Interior(s), i - 1, y, m, k);
    forall k' | k' != k
      ensures LoadOf(Interior(s[i := y]), m, k') == LoadOf(Interior(s), m, k')
    {
      LoadOfReplace(Interior(s), i - 1, y, m, k');
    }
  }

  /** One route of an exchange stays consistent when both exchanged nodes have
      the drawn kind. */
  lemma ExchangedRouteConsistent(r: Route, i: nat, y: int, m: map<int, Node>, dist: Distance,
                                 linehaul: bool, delivered: int, picked: int)
    requires RouteConsistent(r, m, dist) && 0 < i < |r.nodes| - 1 && y in m
    requires m[r.nodes[i]].kind == KindOf(linehaul) && m[y].kind == KindOf(linehaul)
    requires linehaul ==> delivered == r.delivered - m[r.nodes[i]].demand + m[y].demand && picked == r.picked
    requires !linehaul ==> picked == r.picked - m[r.nodes[i]].demand + m[y].demand && delivered == r.delivered
    ensures RouteConsistent(Route(r.nodes[i := y], delivered + picked, delivered, picked,
                                  PathCost(r.nodes[i := y], dist)), m, dist)
  {
    var s := r.nodes[i := y];
    ReplaceLoads(r.nodes, i, y, m, KindOf(linehaul));
    assert Known(s, m);
    forall p | 0 < p < |s| - 1 ensures m[s[p]].kind == m[r.nodes[p]].kind {
    }
  }

  /** An exchange keeps a consistent solution consistent: the loads it caches
      are the loads of the new interiors. */
  lemma ExchangeConsistent(sol: Solution, m: map<int, Node>, dist: Distance, linehaul: bool,
                           a: nat, b: nat, i: nat, j: nat)
    requires ExchangeReady(sol, m, linehaul, a, b, i, j) && Consistent(sol, m, dist)
    ensures Consistent(Exchange(sol, m, dist, linehaul, a, b, i, j), m, dist)
  {
    var rs := sol.routes;
    var s' := Exchange(sol, m, dist, linehaul, a, b, i, j);
    var x, y := rs[a].nodes[i], rs[b].nodes[j];
    var l := LoadsAfter(rs[a], rs[b], m[x], m[y], linehaul);
    assert rs[a] in rs && rs[b] in rs;
    ExchangedRouteConsistent(rs[a], i, y, m, dist, linehaul, l.delivered1, l.picked1);
    ExchangedRouteConsistent(rs[b], j, x, m, dist, linehaul, l.delivered2, l.picked2);
    forall r | r in s'.routes ensures RouteConsistent(r, m, dist) {
      var k :| 0 <= k < |s'.routes| && s'.routes[k] == r;
      if k != a && k != b {
        assert r == rs[k];
      }
    }
  }

  /** An exchange that passed the capacity check keeps every load within capacity. */
  lemma ExchangeCapacity(sol: Solution, m: map<int, Node>, capacity: int, dist: Distance, linehaul: bool,
                         a: nat, b: nat, i: nat, j: nat)
    requires ExchangeReady(sol, m, linehaul, a, b, i, j)
    requires PairFits(sol.routes[a], sol.routes[b], m, capacity, linehaul, i, j)
    requires WithinCapacity(sol, capacity)
    ensures WithinCapacity(Exchange(sol, m, dist, linehaul, a, b, i, j), capacity)
  {
    var s' := Exchange(sol, m, dist, linehaul, a, b, i, j);
    forall r | r in s'.routes ensures r.delivered <= capacity && r.picked <= capacity {
      var k :| 0 <= k < |s'.routes| && s'.routes[k] == r;
      if k != a && k != b {
        assert r == sol.routes[k] && sol.routes[k] in sol.routes;
      }
    }
  }

  /** A fitting exchange of two nodes of the drawn kind keeps everything
      Preserves names. */
  lemma ExchangePreserves(sol: Solution, m: map<int, Node>, capacity: int, dist: Distance, linehaul: bool,
                          a: nat, b: nat, i: nat, j: nat)
    requires ExchangeReady(sol, m, linehaul, a, b, i, j)
    requires PairFits(sol.routes[a], sol.routes[b], m, capacity, linehaul, i, j)
    ensures Preserves(sol, Exchange(sol, m, dist, linehaul, a, b, i, j), m, capacity, dist)
  {
    ExchangeShape(sol, m, dist, linehaul, a, b, i, j);
    ExchangeIds(sol, m, dist, linehaul, a, b, i, j);
    if Consistent(sol, m, dist) {
      ExchangeConsistent(sol, m, dist, linehaul, a, b, i, j);
    }
    if WithinCapacity(sol, capacity) {
      ExchangeCapacity(sol, m, capacity, dist, linehaul, a, b, i, j);
    }
  }

  /** sol' is sol with one exchange carried out that the move can make: two
      inner nodes of the same kind on two different routes, whose exchange
      passes the capacity check. */
  ghost predicate Exchanged(sol: Solution, sol': Solution, m: map<int, Node>, capacity: int, dist: Distance) {
    exists linehaul: bool, a: nat, b: nat, i: nat, j: nat ::
      && ExchangeReady(sol, m, linehaul, a, b, i, j)
      && PairFits(sol.routes[a], sol.routes[b], m, capacity, linehaul, i, j)
      && sol' == Exchange(sol, m, dist, linehaul, a, b, i, j)
  }

  /** Such an exchange keeps everything Preserves names. */
  lemma ExchangedPreserves(sol: Solution, sol': Solution, m: map<int, Node>, capacity: int, dist: Distance)
    requires Exchanged(sol, sol', m, capacity, dist)
    ensures Preserves(sol, sol', m, capacity, dist)
  {
    var linehaul: bool, a: nat, b: nat, i: nat, j: nat :|
      && ExchangeReady(sol, m, linehaul, a, b, i, j)
      && PairFits(sol.routes[a], sol.routes[b], m, capacity, linehaul, i, j)
      && sol' == Exchange(sol, m, dist, linehaul, a, b, i, j);
    ExchangePreserves(sol, m, capacity, dist, linehaul, a, b, i, j);
  }

  /** An exchange changes routes a and b and nothing else: route a gets route
      b's node at position i and route b gets route a's node at position j;
      only the load of the exchanged kind moves, and what one route gains the
      other loses; the total moves by the change of the two route costs. */
  lemma ExchangeEffect(sol: Solution, m: map<int, Node>, dist: Distance, linehaul: bool,
                       a: nat, b: nat, i: nat, j: nat)
    requires ExchangeReady(sol, m, linehaul, a, b, i, j)
    ensures var s', ra, rb := Exchange(sol, m, dist, linehaul, a, b, i, j), sol.routes[a], sol.routes[b];
            var d1, d2 := m[ra.nodes[i]].demand, m[rb.nodes[j]].demand;
            && |s'.routes| == |sol.routes|
            && (forall r | 0 <= r < |sol.routes| && r != a && r != b :: s'.routes[r] == sol.routes[r])
            && s'.routes[a].nodes == ra.nodes[i := rb.nodes[j]]
            && s'.routes[b].nodes == rb.nodes[j := ra.nodes[i]]
            && s'.routes[a].delivered + s'.routes[b].delivered == ra.delivered + rb.delivered
            && s'.routes[a].picked + s'.routes[b].picked == ra.picked + rb.picked
            && (linehaul ==> s'.routes[a].delivered == ra.delivered - d1 + d2
                             && s'.routes[b].delivered == rb.delivered - d2 + d1)
            && (!linehaul ==> s'.routes[a].picked == ra.picked - d1 + d2
                              && s'.routes[b].picked == rb.picked - d2 + d1)
            && (linehaul ==> s'.routes[a].picked == ra.picked && s'.routes[b].picked == rb.picked)
            && (!linehaul ==> s'.routes[a].delivered == ra.delivered && s'.routes[b].delivered == rb.delivered)
            && s'.routes[a].used == s'.routes[a].delivered + s'.routes[a].picked
            && s'.routes[b].used == s'.routes[b].delivered + s'.routes[b].picked
            && s'.routes[a].cost == PathCost(s'.routes[a].nodes, dist)
            && s'.routes[b].cost == PathCost(s'.routes[b].nodes, dist)
            && s'.cost == SumCosts(s'.routes)
            && (sol.cost == SumCosts(sol.routes) ==>
                  s'.cost == sol.cost - ra.cost - rb.cost + s'.routes[a].cost + s'.routes[b].cost)
  {
    var s' := Exchange(sol, m, dist, linehaul, a, b, i, j);
    var mid := sol.routes[a := s'.routes[a]];
    assert s'.routes == mid[b := s'.routes[b]];
    SumCostsUpdate(sol.routes, a, s'.routes[a]);
    SumCostsUpdate(mid, b, s'.routes[b]);
  }

  /** A successful attempt is such an exchange. */
  lemma AttemptExchanged(sol: Solution, m: map<int, Node>, capacity: int, dist: Distance, d: SwapDraw)
    requires Movable(sol, m) && Attempt(sol, m, capacity, dist, d).Some?
    ensures Exchanged(sol, Attempt(sol, m, capacity, dist, d).value, m, capacity, dist)
  {
    var n := |sol.routes|;
    var a, b := FirstRoute(d, n), SecondRoute(d, n);
    var i, j := AttemptOnExchanged(sol, m, capacity, dist, d.linehaul, a, b, d.keys1, d.keys2);
    assert ExchangeReady(sol, m, d.linehaul, a, b, i, j);
  }

  /** A successful attempt keeps everything Preserves names. */
  lemma AttemptPreserves(sol: Solution, m: map<int, Node>, capacity: int, dist: Distance, d: SwapDraw)
    requires Movable(sol, m) && Attempt(sol, m, capacity, dist, d).Some?
    ensures Preserves(sol, Attempt(sol, m, capacity, dist, d).value, m, capacity, dist)
  {
    AttemptExchanged(sol, m, capacity, dist, d);
    ExchangedPreserves(sol, Attempt(sol, m, capacity, dist, d).value, m, capacity, dist);
  }

  /** A successful attempt on routes a and b exchanges position i of route a
      with position j of route b, for positions it returns. */
  lemma AttemptOnExchanged(sol: Solution, m: map<int, Node>, capacity: int, dist: Distance, linehaul: bool,
                           a: nat, b: nat, keys1: seq<nat>, keys2: seq<nat>)
    returns (i: nat, j: nat)
    requires Addressable(sol, m) && a < |sol.routes| && b < |sol.routes| && a != b
    requires AttemptOn(sol, m, capacity, dist, linehaul, a, b, keys1, keys2).Some?
    ensures ExchangeReady(sol, m, linehaul, a, b, i, j)
    ensures PairFits(sol.routes[a], sol.routes[b], m, capacity, linehaul, i, j)
    ensures AttemptOn(sol, m, capacity, dist, linehaul, a, b, keys1, keys2).value
            == Exchange(sol, m, dist, linehaul, a, b, i, j)
  {
    var ra, rb, k := sol.routes[a], sol.routes[b], KindOf(linehaul);
    assert ra in sol.routes && rb in sol.routes;
    var p1, p2 := Positions(ra.nodes, m, k, |ra.nodes| - 1), Positions(rb.nodes, m, k, |rb.nodes| - 1);
    AttemptOnNone(sol, m, capacity, dist, linehaul, a, b, keys1, keys2, p1, p2);
    PositionsInner(ra, m, k);
    PositionsInner(rb, m, k);
    AttemptOnPick(sol, m, capacity, dist, linehaul, a, b, keys1, keys2, p1, p2);
    i, j := PickShuffledExchanged(sol, m, capacity, dist, linehaul, a, b, p1, p2, keys1, keys2);
  }

  lemma PickShuffledExchanged(sol: Solution, m: map<int, Node>, capacity: int, dist: Distance, linehaul: bool,
                              a: nat, b: nat, p1: seq<nat>, p2: seq<nat>, keys1: seq<nat>, keys2: seq<nat>)
    returns (i: nat, j: nat)
    requires Addressable(sol, m) && a < |sol.routes| && b < |sol.routes| && a != b
    requires Inner(sol.routes[a], m, KindOf(linehaul), p1) && Inner(sol.routes[b], m, KindOf(linehaul), p2)
    requires PickShuffled(sol, m, capacity, dist, linehaul, a, b, p1, p2, keys1, keys2).Some?
    ensures ExchangeReady(sol, m, linehaul, a, b, i, j)
    ensures PairFits(sol.routes[a], sol.routes[b], m, capacity, linehaul, i, j)
    ensures PickShuffled(sol, m, capacity, dist, linehaul, a, b, p1, p2, keys1, keys2).value
            == Exchange(sol, m, dist, linehaul, a, b, i, j)
  {
    ShuffleInner(sol.routes[a], m, KindOf(linehaul), p1, keys1);
    ShuffleInner(sol.routes[b], m, KindOf(linehaul), p2, keys2);
    i, j := PickExchanged(sol, m, capacity, dist, linehaul, a, b, Shuffle(p1, keys1), Shuffle(p2, keys2));
  }

  /** The exchange of the first fitting pair of candidates, at the positions
      it returns, is one the move can make. */
  lemma PickExchanged(sol: Solution, m: map<int, Node>, capacity: int, dist: Distance, linehaul: bool,
                      a: nat, b: nat, c1: seq<nat>, c2: seq<nat>)
    returns (i: nat, j: nat)
    requires Addressable(sol, m) && a < |sol.routes| && b < |sol.routes| && a != b
    requires Inner(sol.routes[a], m, KindOf(linehaul), c1) && Inner(sol.routes[b], m, KindOf(linehaul), c2)
    requires Pick(sol, m, capacity, dist, linehaul, a, b, c1, c2).Some?
    ensures ExchangeReady(sol, m, linehaul, a, b, i, j)
    ensures PairFits(sol.routes[a], sol.routes[b], m, capacity, linehaul, i, j)
    ensures Pick(sol, m, capacity, dist, linehaul, a, b, c1, c2).value == Exchange(sol, m, dist, linehaul, a, b, i, j)
  {
    var pq := FirstFit(sol.routes[a], sol.routes[b], m, capacity, linehaul, c1, c2, 0).value;
    FirstFitSpec(sol.routes[a], sol.routes[b], m, capacity, linehaul, c1, c2, 0);
    i, j := c1[pq.0], c2[pq.1];
  }
}
