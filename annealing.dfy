/** The metaheuristic (simulated_annealing): from the current solution, build a
    neighbour by a fixed number of swap moves, accept it when it is cheaper or
    when the Metropolis test passes, remember the cheapest solution seen, and
    cool the temperature geometrically. */
module Annealing {
  import opened Instance
  import opened Routes
  import opened SwapMove

  /** What stays fixed during a run: the lookup, the capacity, the distance,
      the cooling factor, the three iteration counts and the random choices.
      swapDraws(c) are the draws of the c-th call of the swap move, and
      accept(j, delta, temp) says whether the j-th uniform draw of the
      acceptance test falls below exp(-delta / temp). */
  datatype Setting = Setting(m: map<int, Node>, capacity: int, dist: Distance, temp0: real, alpha: real,
                             itersPerTemp: int, maxIters: int, swapsPerNeighbour: int,
                             swapDraws: nat -> nat -> SwapDraw,
                             accept: (nat, int, real) -> bool)

  /** The state of a run: the current solution, the best one so far, and how
      many swap calls and acceptance draws have been used. */
  datatype Run = Run(current: Solution, best: Solution, calls: nat, draws: nat)

  /** A loop bound of the source: a count that is not positive runs no round. */
  function Count(x: int): nat {
    if x > 0 then x else 0
  }

  /** The outcome of the swap move on sol with the draws of call number c. */
  function Moved(e: Setting, sol: Solution, c: nat): Option<Solution>
  {
    if Movable(sol, e.m) then
      FirstSuccess(Outcomes(sol, e.m, e.capacity, e.dist, e.swapDraws(c)), 0, MaxAttempts)
    else None
  }

  /** A successful swap move keeps what Preserves names and can be repeated. */
  lemma MovedKeeps(e: Setting, sol: Solution, c: nat)
    requires Movable(sol, e.m) && Moved(e, sol, c).Some?
    ensures Preserves(sol, Moved(e, sol, c).value, e.m, e.capacity, e.dist)
    ensures Movable(Moved(e, sol, c).value, e.m)
  {
    SwapPreserves(sol, e.m, e.capacity, e.dist, MaxAttempts, e.swapDraws(c));
  }

  /** A neighbour: `left` more swap moves applied one after the other from
      call number c on; None as soon as one of them fails (source lines
      349-357). The second component is the number of the next call. */
  function Neighbour(e: Setting, sol: Solution, c: nat, left: nat): (Option<Solution>, nat)
    decreases left
  {
    if left == 0 then (Some(sol), c)
    else
      var r := Moved(e, sol, c);
      if r.None? then (None, c + 1)
      else Neighbour(e, r.value, c + 1, left - 1)
  }

  /** One round of the inner loop at temperature temp (source lines 348-375):
      a failed neighbour changes nothing but the calls used; a cheaper one is
      taken; an equally expensive one is taken too, since exp(0) = 1 exceeds
      every uniform draw in [0, 1); a more expensive one is taken when the
      acceptance test passes. Every test consumes one uniform draw. */
  function Consider(e: Setting, run: Run, temp: real): Run
  {
    var (nb, calls) := Neighbour(e, run.current, run.calls, Count(e.swapsPerNeighbour));
    Decide(run, nb, calls, temp, e.accept)
  }

  /** The acceptance step of a round, given the neighbour nb (None when it
      could not be built) and the number of swap calls used so far. */
  function Decide(run: Run, nb: Option<Solution>, calls: nat, temp: real,
                  accept: (nat, int, real) -> bool): Run
  {
    if nb.None? then run.(calls := calls)
    else
      var delta := nb.value.cost - run.current.cost;
      var sc := if delta < 0 || delta == 0 || accept(run.draws, delta, temp) then nb.value
                else run.current;
      var draws := if delta < 0 then run.draws else run.draws + 1;
      Run(sc, if sc.cost < run.best.cost then sc else run.best, calls, draws)
  }

  /** The rules of the acceptance step: a failed neighbour changes nothing but
      the calls used; a cheaper neighbour or one of equal cost (exp(0) = 1
      beats every uniform draw) is always taken; a dearer one is
      taken exactly when its test passes; the best solution changes only to a
      current solution strictly cheaper than it, so its cost never rises. */
  lemma DecideRules(run: Run, nb: Option<Solution>, calls: nat, temp: real,
                    accept: (nat, int, real) -> bool)
    ensures nb.None? ==> Decide(run, nb, calls, temp, accept) == run.(calls := calls)
    ensures nb.Some? && nb.value.cost < run.current.cost ==>
              Decide(run, nb, calls, temp, accept).current == nb.value
    ensures nb.Some? && nb.value.cost == run.current.cost ==>
              Decide(run, nb, calls, temp, accept).current == nb.value
    ensures nb.Some? && nb.value.cost > run.current.cost ==>
              (Decide(run, nb, calls, temp, accept).current
               == if accept(run.draws, nb.value.cost - run.current.cost, temp) then nb.value else run.current)
    ensures Decide(run, nb, calls, temp, accept).best == run.best
            || (Decide(run, nb, calls, temp, accept).best == Decide(run, nb, calls, temp, accept).current
                && Decide(run, nb, calls, temp, accept).current.cost < run.best.cost)
    ensures Decide(run, nb, calls, temp, accept).best.cost <= run.best.cost
  {
  }

  /** What every state of a run keeps relative to the initial solution init:
      the current and the best solution are both reachable by moves that keep
      the route shapes, the ids, consistency and capacity; the best is no
      dearer than init nor than the current solution. */
  predicate Kept(e: Setting, init: Solution, run: Run) {
    && Movable(run.current, e.m)
    && Preserves(init, run.current, e.m, e.capacity, e.dist)
    && Preserves(init, run.best, e.m, e.capacity, e.dist)
    && run.best.cost <= init.cost
    && run.best.cost <= run.current.cost
  }

  /** A neighbour keeps everything Preserves names and can be moved again;
      the calls only advance. */
  lemma {:induction false} NeighbourKeeps(e: Setting, sol: Solution, c: nat, left: nat)
    requires Movable(sol, e.m)
    ensures Neighbour(e, sol, c, left).0.Some? ==>
              && Preserves(sol, Neighbour(e, sol, c, left).0.value, e.m, e.capacity, e.dist)
              && Movable(Neighbour(e, sol, c, left).0.value, e.m)
    decreases left
  {
    if left == 0 {
      PreservesRefl(sol, e.m, e.capacity, e.dist);
    } else {
      var r := Moved(e, sol, c);
      if r.Some? {
        MovedKeeps(e, sol, c);
        NeighbourKeeps(e, r.value, c + 1, left - 1);
        var rest := Neighbour(e, r.value, c + 1, left - 1).0;
        assert Neighbour(e, sol, c, left).0 == rest;
        if rest.Some? {
          PreservesTrans(sol, r.value, rest.value, e.m, e.capacity, e.dist);
        }
      }
    }
  }

  /** A round keeps what a run keeps, and the best solution never gets dearer. */
  lemma ConsiderKeeps(e: Setting, init: Solution, run: Run, temp: real)
    requires Kept(e, init, run)
    ensures Kept(e, init, Consider(e, run, temp))
    ensures Consider(e, run, temp).best.cost <= run.best.cost
  {
    var (nb, calls) := Neighbour(e, run.current, run.calls, Count(e.swapsPerNeighbour));
    NeighbourKeeps(e, run.current, run.calls, Count(e.swapsPerNeighbour));
    DecideKeeps(e, init, run, nb, calls, temp);
  }

  /** The acceptance step keeps what a run keeps when the neighbour does, and
      the best solution is the cheapest of the old best and the new current. */
  lemma DecideKeeps(e: Setting, init: Solution, run: Run, nb: Option<Solution>, calls: nat, temp: real)
    requires Kept(e, init, run)
    requires nb.Some? ==> Preserves(run.current, nb.value, e.m, e.capacity, e.dist) && Movable(nb.value, e.m)
    ensures Movable(Decide(run, nb, calls, temp, e.accept).current, e.m)
    ensures Preserves(init, Decide(run, nb, calls, temp, e.accept).current, e.m, e.capacity, e.dist)
    ensures Preserves(init, Decide(run, nb, calls, temp, e.accept).best, e.m, e.capacity, e.dist)
    ensures Decide(run, nb, calls, temp, e.accept).best.cost <= init.cost
    ensures Decide(run, nb, calls, temp, e.accept).best.cost <= Decide(run, nb, calls, temp, e.accept).current.cost
    ensures Decide(run, nb, calls, temp, e.accept).best.cost <= run.best.cost
  {
    var d := Decide(run, nb, calls, temp, e.accept);
    if nb.Some? {
      PreservesTrans(init, run.current, nb.value, e.m, e.capacity, e.dist);
      assert d.current == nb.value || d.current == run.current;
    } else {
      assert d.current == run.current && d.best == run.best;
    }
    assert d.best == run.best || d.best == d.current;
  }

  /** One round at temperature temp, as a step from state to state. */
  function Round(e: Setting, temp: real): Run -> Run {
    run => Consider(e, run, temp)
  }

  /** The state after k steps. */
  function Iterate(step: Run -> Run, run: Run, k: nat): Run
    decreases k
  {
    if k == 0 then run else step(Iterate(step, run, k - 1))
  }

  /** A property every step keeps holds after any number of steps. */
  lemma {:induction false} IterateKeeps(step: Run -> Run, inv: Run -> bool, run: Run, k: nat)
    requires inv(run)
    requires forall r :: inv(r) ==> inv(step(r))
    ensures inv(Iterate(step, run, k))
    decreases k
  {
    if k > 0 {
      IterateKeeps(step, inv, run, k - 1);
    }
  }

  /** The state after k rounds at temperature temp. */
  function Rounds(e: Setting, run: Run, temp: real, k: nat): Run {
    Iterate(Round(e, temp), run, k)
  }

  lemma RoundsKeep(e: Setting, init: Solution, run: Run, temp: real, k: nat)
    requires Kept(e, init, run)
    ensures Kept(e, init, Rounds(e, run, temp, k))
  {
    forall r | Kept(e, init, r) ensures Kept(e, init, Round(e, temp)(r)) {
      ConsiderKeeps(e, init, r, temp);
    }
    IterateKeeps(Round(e, temp), r => Kept(e, init, r), run, k);
  }

  /** The temperature of outer iteration t: the initial temperature cooled
      t times by the factor alpha. */
  function Temp(e: Setting, t: nat): real {
    if t == 0 then e.temp0 else Temp(e, t - 1) * e.alpha
  }

  /** The outer loop from iteration t on (source lines 347-379), for any
      function rounds doing the rounds of one temperature: while fewer than
      maxIters iterations ran and the temperature is above 10, do the rounds
      and cool. */
  function Outer(e: Setting, rounds: (Run, real) -> Run, run: Run, t: nat): Run
    decreases if t < e.maxIters then e.maxIters - t else 0
  {
    if t < e.maxIters && Temp(e, t) > 10.0 then Outer(e, rounds, rounds(run, Temp(e, t)), t + 1)
    else run
  }

  /** A property all rounds keep holds when the outer loop ends. */
  lemma {:induction false} OuterKeeps(e: Setting, rounds: (Run, real) -> Run, inv: Run -> bool,
                                      run: Run, t: nat)
    requires inv(run)
    requires forall r, temp :: inv(r) ==> inv(rounds(r, temp))
    ensures inv(Outer(e, rounds, run, t))
    decreases if t < e.maxIters then e.maxIters - t else 0
  {
    if t < e.maxIters && Temp(e, t) > 10.0 {
      OuterKeeps(e, rounds, inv, rounds(run, Temp(e, t)), t + 1);
    }
  }

  /** The rounds of one temperature of the annealing run. */
  function TemperatureRounds(e: Setting): (Run, real) -> Run {
    (run, temp) => Rounds(e, run, temp, Count(e.itersPerTemp))
  }

  /** The annealing run from iteration t on. */
  function Anneal(e: Setting, run: Run, t: nat): Run {
    Outer(e, TemperatureRounds(e), run, t)
  }

  lemma AnnealKeeps(e: Setting, init: Solution, run: Run, t: nat)
    requires Kept(e, init, run)
    ensures Kept(e, init, Anneal(e, run, t))
  {
    forall r, temp | Kept(e, init, r) ensures Kept(e, init, TemperatureRounds(e)(r, temp)) {
      RoundsKeep(e, init, r, temp, Count(e.itersPerTemp));
    }
    OuterKeeps(e, TemperatureRounds(e), r => Kept(e, init, r), run, t);
  }

  /** The state a run starts from. */
  function Start(init: Solution): Run {
    Run(init, init, 0, 0)
  }

  /** The best solution of a whole run is no dearer than the initial one,
      has the initial route shapes and ids, and is consistent and within
      capacity whenever the initial one is. */
  lemma AnnealBest(e: Setting, init: Solution)
    requires Movable(init, e.m)
    ensures Anneal(e, Start(init), 0).best.cost <= init.cost
    ensures Preserves(init, Anneal(e, Start(init), 0).best, e.m, e.capacity, e.dist)
  {
    PreservesRefl(init, e.m, e.capacity, e.dist);
    AnnealKeeps(e, init, Start(init), 0);
  }

  /** A run that never calls the swap move returns its start: there is no
      outer iteration, no inner round, or each neighbour is the current
      solution itself, taken back at equal cost. No movability is needed. */
  lemma AnnealIdle(e: Setting, init: Solution)
    requires e.maxIters <= 0 || e.temp0 <= 10.0 || e.swapsPerNeighbour <= 0 || e.itersPerTemp <= 0
    ensures Anneal(e, Start(init), 0).best == init
    ensures Anneal(e, Start(init), 0).current == init
  {
    var inv := (r: Run) => r.current == init && r.best == init;
    if e.maxIters > 0 && e.temp0 > 10.0 {
      forall r, temp | inv(r) ensures inv(TemperatureRounds(e)(r, temp)) {
        IdleRounds(e, init, r, temp);
      }
      OuterKeeps(e, TemperatureRounds(e), inv, Start(init), 0);
    }
  }

  /** The rounds of one temperature leave a run at init alone when they
      make no swap call. */
  lemma IdleRounds(e: Setting, init: Solution, run: Run, temp: real)
    requires e.swapsPerNeighbour <= 0 || e.itersPerTemp <= 0
    requires run.current == init && run.best == init
    ensures Rounds(e, run, temp, Count(e.itersPerTemp)).current == init
    ensures Rounds(e, run, temp, Count(e.itersPerTemp)).best == init
  {
    var inv := (r: Run) => r.current == init && r.best == init;
    if e.itersPerTemp > 0 {
      forall r | inv(r) ensures inv(Round(e, temp)(r)) {
        assert Neighbour(e, r.current, r.calls, Count(e.swapsPerNeighbour)) == (Some(r.current), r.calls);
      }
      IterateKeeps(Round(e, temp), inv, run, Count(e.itersPerTemp));
    }
  }

  /** One call of the swap move (swap_nodos) on sol with the draws of call
      number c. */
  method Move(e: Setting, sol: Solution, c: nat) returns (next: Solution, ok: bool)
    requires Movable(sol, e.m)
    ensures Moved(e, sol, c) == if ok then Some(next) else None
    ensures ok ==> Movable(next, e.m)
  {
    next, ok := Swap(sol, e.m, e.capacity, e.dist, MaxAttempts, e.swapDraws(c));
    if ok {
      SwapPreserves(sol, e.m, e.capacity, e.dist, MaxAttempts, e.swapDraws(c));
    }
  }

  /** After s of the swap moves of the neighbour of sol (all of which
      succeeded) the copy is cand and the count of swap calls is c, and the
      remaining moves lead to the same neighbour. */
  predicate Pending(e: Setting, sol: Solution, calls: nat, cand: Solution, c: nat, s: int) {
    0 <= s <= Count(e.swapsPerNeighbour) && Movable(cand, e.m)
    && Neighbour(e, cand, c, Count(e.swapsPerNeighbour) - s)
       == Neighbour(e, sol, calls, Count(e.swapsPerNeighbour))
  }

  /** Before the first swap move the copy is sol itself. */
  lemma PendingStart(e: Setting, sol: Solution, calls: nat)
    requires Movable(sol, e.m)
    ensures Pending(e, sol, calls, sol, calls, 0)
  {
  }

  /** After all the swap moves the neighbour is the copy. */
  lemma PendingDone(e: Setting, sol: Solution, calls: nat, cand: Solution, c: nat, s: int)
    requires Pending(e, sol, calls, cand, c, s) && s >= e.swapsPerNeighbour
    ensures Neighbour(e, sol, calls, Count(e.swapsPerNeighbour)) == (Some(cand), c)
  {
  }

  /** One swap move of the neighbour: either it succeeds and one move more is
      done, or it fails and the neighbour ends without a solution. */
  method NeighbourStep(e: Setting, ghost sol: Solution, ghost calls: nat, cand: Solution, c: nat,
                       ghost s: int)
    returns (next: Solution, moved: bool)
    requires Pending(e, sol, calls, cand, c, s) && s < e.swapsPerNeighbour
    ensures moved ==> Pending(e, sol, calls, next, c + 1, s + 1)
    ensures !moved ==> Neighbour(e, sol, calls, Count(e.swapsPerNeighbour)) == (None, c + 1)
  {
    next, moved := Move(e, cand, c);
  }

  /** The neighbour of a round (source lines 349-357): up to
      swapsPerNeighbour swap moves on a copy of sol, stopping at the first
      that fails; calls counts the swap moves made. */
  method BuildNeighbour(e: Setting, sol: Solution, calls: nat)
    returns (candidate: Solution, ok: bool, calls': nat)
    requires Movable(sol, e.m)
    ensures Neighbour(e, sol, calls, Count(e.swapsPerNeighbour))
            == (if ok then Some(candidate) else None, calls')
  {
    var cand, c := sol, calls;
    var s := 0;
    PendingStart(e, sol, calls);
    while s < e.swapsPerNeighbour
      invariant Pending(e, sol, calls, cand, c, s)
      decreases e.swapsPerNeighbour - s
    {
      var next, moved := NeighbourStep(e, sol, calls, cand, c, s);
      if !moved {
        candidate, ok, calls' := cand, false, c + 1;
        return;
      }
      cand, c, s := next, c + 1, s + 1;
    }
    PendingDone(e, sol, calls, cand, c, s);
    candidate, ok, calls' := cand, true, c;
  }

  /** The acceptance step of a round (source lines 359-374). */
  method Accept(run: Run, candidate: Solution, ok: bool, calls: nat, temp: real,
                accept: (nat, int, real) -> bool)
    returns (run': Run)
    ensures run' == Decide(run, if ok then Some(candidate) else None, calls, temp, accept)
  {
    var sc, sbest, draws := run.current, run.best, run.draws;
    if ok {
      var delta := candidate.cost - sc.cost;
      if delta < 0 {
        sc := candidate;
      } else {
        if delta == 0 || accept(draws, delta, temp) {
          sc := candidate;
        }
        draws := draws + 1;
      }
      if sc.cost < sbest.cost {
        sbest := sc;
      }
    }
    run' := Run(sc, sbest, calls, draws);
  }

  /** One round of the inner loop (source lines 348-375). */
  method TakeRound(e: Setting, run: Run, temp: real) returns (run': Run)
    requires Movable(run.current, e.m)
    ensures run' == Consider(e, run, temp) && Movable(run'.current, e.m)
  {
    var candidate, ok, calls := BuildNeighbour(e, run.current, run.calls);
    NeighbourKeeps(e, run.current, run.calls, Count(e.swapsPerNeighbour));
    run' := Accept(run, candidate, ok, calls, temp, e.accept);
  }

  /** One more round extends the rounds done so far. */
  lemma RoundsNext(e: Setting, run: Run, temp: real, k: nat)
    ensures Rounds(e, run, temp, k + 1) == Consider(e, Rounds(e, run, temp, k), temp)
  {
  }

  /** The rounds of one temperature (source lines 348-375). */
  method RoundsAt(e: Setting, run: Run, temp: real) returns (run': Run)
    requires Movable(run.current, e.m)
    ensures run' == Rounds(e, run, temp, Count(e.itersPerTemp)) && Movable(run'.current, e.m)
  {
    var cur, k := run, 0;
    while k < e.itersPerTemp
      invariant 0 <= k <= Count(e.itersPerTemp) && Movable(cur.current, e.m)
      invariant cur == Rounds(e, run, temp, k)
    {
      RoundsNext(e, run, temp, k);
      cur := TakeRound(e, cur, temp);
      k := k + 1;
    }
    run' := cur;
  }

  /** An outer iteration that runs is its rounds followed by the rest. */
  lemma AnnealNext(e: Setting, run: Run, t: nat)
    requires t < e.maxIters && Temp(e, t) > 10.0
    ensures Anneal(e, run, t) == Anneal(e, Rounds(e, run, Temp(e, t), Count(e.itersPerTemp)), t + 1)
    ensures Temp(e, t + 1) == Temp(e, t) * e.alpha
  {
  }

  /** One iteration of the outer loop (source lines 347-378): the rounds of
      temperature temp, then cooling. */
  method Cool(e: Setting, run: Run, temp: real, ghost t: nat) returns (run': Run, temp': real)
    requires temp == Temp(e, t) && t < e.maxIters && temp > 10.0 && Movable(run.current, e.m)
    ensures temp' == Temp(e, t + 1) && Movable(run'.current, e.m)
    ensures Anneal(e, run', t + 1) == Anneal(e, run, t)
  {
    AnnealNext(e, run, t);
    run' := RoundsAt(e, run, temp);
    temp' := temp * e.alpha;
  }

  /** The outer loop of the run from init (source lines 342-381). iters is
      the number of outer iterations it ran: at most max_iteraciones, each at
      a temperature above 10, stopping at max_iteraciones or at the first
      temperature that is not above 10. */
  method AnnealFrom(e: Setting, init: Solution) returns (best: Solution, ghost iters: nat)
    requires Movable(init, e.m)
    ensures best == Anneal(e, Start(init), 0).best
    ensures iters <= Count(e.maxIters)
    ensures forall u :: 0 <= u < iters ==> Temp(e, u) > 10.0
    ensures iters == Count(e.maxIters) || Temp(e, iters) <= 10.0
  {
    var run, temp, t := Start(init), e.temp0, 0;
    while t < e.maxIters && temp > 10.0
      invariant 0 <= t <= Count(e.maxIters) && temp == Temp(e, t) && Movable(run.current, e.m)
      invariant forall u :: 0 <= u < t ==> Temp(e, u) > 10.0
      invariant Anneal(e, run, t) == Anneal(e, Start(init), 0)
      decreases e.maxIters - t
    {
      run, temp := Cool(e, run, temp, t);
      t := t + 1;
    }
    best, iters := run.best, t;
  }

  /** simulated_annealing (source lines 330-382): the best solution of the
      run from init. The uniform draws of the acceptance test and the draws
      of every swap move are the inputs accept and swapDraws. The result is
      never dearer than init and keeps what every swap move keeps; the outer
      loop runs at most max_iteraciones times. */
  method SimulatedAnnealing(init: Solution, m: map<int, Node>, capacity: int, dist: Distance,
                            temp0: real, alpha: real, itersPerTemp: int, maxIters: int,
                            swapsPerNeighbour: int, swapDraws: nat -> nat -> SwapDraw,
                            accept: (nat, int, real) -> bool)
    returns (best: Solution, ghost iters: nat)
    requires Movable(init, m)
    ensures best == Anneal(Setting(m, capacity, dist, temp0, alpha, itersPerTemp, maxIters,
                                   swapsPerNeighbour, swapDraws, accept), Start(init), 0).best
    ensures best.cost <= init.cost
    ensures Preserves(init, best, m, capacity, dist)
    ensures iters <= Count(maxIters)
    ensures var e := Setting(m, capacity, dist, temp0, alpha, itersPerTemp, maxIters,
                             swapsPerNeighbour, swapDraws, accept);
            && (forall u :: 0 <= u < iters ==> Temp(e, u) > 10.0)
            && (iters == Count(maxIters) || Temp(e, iters) <= 10.0)
  {
    var e := Setting(m, capacity, dist, temp0, alpha, itersPerTemp, maxIters, swapsPerNeighbour, swapDraws, accept);
    best, iters := AnnealFrom(e, init);
    AnnealBest(e, init);
  }
}
