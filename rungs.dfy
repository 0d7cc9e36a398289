/**
 * The integer side of the successive-halving schedule: when rungs fire and
 * what each rung does to the active count, the rung length, the rung
 * counter and the budget accounting. None of this depends on the metric
 * values, so it is modelled on its own and the scheduler class is tied to
 * it one observation at a time.
 */
module Rungs {
  import opened BudgetPlanner

  /** The configuration fixed at construction: pool size n, elimination rate
      eta, the total budget and c = ceil(log_eta(n)). */
  datatype Plan = Plan(n: nat, eta: nat, budget: int, c: nat)

  /** The counters the scheduler updates: the active count s, the rung
      length r, the cumulative number of observations (never reset), the
      number of rungs so far and the budget credited to them. */
  datatype Counters = Counters(s: nat, r: int, nIterations: nat, nRungs: nat, budgetUsed: int)

  /** A configuration the constructor accepts: at least two candidates, an
      integer rate of at least two, and c computed from them. */
  predicate ValidPlan(p: Plan)
  {
    p.n >= 2 && p.eta >= 2 && p.c == CeilLog(p.n, p.eta)
  }

  /** What holds of the counters at every point of a run: s stays between 1
      and n; the rungs fired so far plus those still needed to reach one
      candidate add up to c; r is the rung length for the current s; and each
      rung has been credited at most budget / c. */
  predicate Inv(p: Plan, st: Counters)
  {
    && ValidPlan(p)
    && p.c >= 1
    && 1 <= st.s <= p.n
    && st.nRungs + CeilLog(st.s, p.eta) == p.c
    && st.r == RungLength(p.budget, st.s, p.c)
    && 0 <= st.budgetUsed
    && st.budgetUsed * p.c <= st.nRungs * p.budget
  }

  /** What one observation needs to be well defined: a rate of at least 2,
      at least one rung in the plan and at least one active candidate. */
  predicate Ready(p: Plan, st: Counters)
  {
    p.eta >= 2 && p.c >= 1 && st.s >= 1
  }

  /** The counters right after construction. */
  function Init(p: Plan): (st: Counters)
    requires ValidPlan(p)
    ensures Inv(p, st) && Ready(p, st)
    ensures st.s == p.n && st.nIterations == 0 && st.nRungs == 0 && st.budgetUsed == 0
  {
    CeilLogBounds(p.n, p.eta);
    Counters(p.n, RungLength(p.budget, p.n, p.c), 0, 0, 0)
  }

  /** The observation about to be counted completes a rung: more than one
      candidate is active and the incremented counter equals r exactly. */
  predicate Fires(st: Counters)
  {
    st.s > 1 && st.nIterations + 1 == st.r
  }

  /** The counters after one observation. */
  function Tick(p: Plan, st: Counters): (st': Counters)
    requires Ready(p, st)
    ensures Ready(p, st')
    ensures st'.nIterations == st.nIterations + 1
    ensures st'.s <= st.s
    ensures st'.s < st.s <==> Fires(st)
    ensures !Fires(st) ==> st' == st.(nIterations := st.nIterations + 1)
  {
    if Fires(st) then
      CutoffShrinks(st.s, p.eta);
      var s' := CeilDiv(st.s, p.eta);
      Counters(s', RungLength(p.budget, s', p.c), st.nIterations + 1, st.nRungs + 1, st.budgetUsed + st.s * st.r)
    else
      st.(nIterations := st.nIterations + 1)
  }

  /** Each rung costs at most budget / c: s * r * c <= budget. */
  lemma RungCost(p: Plan, st: Counters)
    requires Inv(p, st)
    ensures (st.budgetUsed + st.s * st.r) * p.c <= (st.nRungs + 1) * p.budget
  {
    CostStep(st.budgetUsed, st.s, st.r, p.c, p.budget, st.nRungs);
  }

  /** One observation keeps the invariant, rung or no rung. */
  lemma TickKeepsInv(p: Plan, st: Counters)
    requires Inv(p, st)
    ensures Inv(p, Tick(p, st))
  {
    if Fires(st) {
      CutoffShrinks(st.s, p.eta);
      RungCost(p, st);
      MulMono(0, st.r, st.s);
    }
  }

  /** The counters after a rung, spelled out field by field. */
  lemma RungStep(p: Plan, st: Counters)
    requires Inv(p, st) && Fires(st)
    ensures CeilDiv(st.s, p.eta) >= 1
    ensures Tick(p, st) == Counters(CeilDiv(st.s, p.eta), RungLength(p.budget, CeilDiv(st.s, p.eta), p.c),
                                    st.nIterations + 1, st.nRungs + 1, st.budgetUsed + st.s * st.r)
    // also TickKeepsInv's conclusion, repeated so that one call gives a
    // rung's caller the whole transition
    ensures Inv(p, Tick(p, st))
  {
    CutoffShrinks(st.s, p.eta);
    TickKeepsInv(p, st);
  }

  /** The counters after k observations. */
  function Ticks(p: Plan, st: Counters, k: nat): (st': Counters)
    requires Ready(p, st)
    ensures Ready(p, st')
    ensures st'.nIterations == st.nIterations + k
    ensures st'.s <= st.s
    decreases k
  {
    if k == 0 then st else Tick(p, Ticks(p, st, k - 1))
  }

  /** Any number of observations keeps the invariant. */
  lemma {:induction false} TicksKeepInv(p: Plan, st: Counters, k: nat)
    requires Inv(p, st)
    ensures Inv(p, Ticks(p, st, k))
    decreases k
  {
    if k > 0 {
      TicksKeepInv(p, st, k - 1);
      TickKeepsInv(p, Ticks(p, st, k - 1));
    }
  }

  /** Running a + b observations is running a and then b. */
  lemma {:induction false} TicksAdd(p: Plan, st: Counters, a: nat, b: nat)
    requires Ready(p, st)
    ensures Ticks(p, st, a + b) == Ticks(p, Ticks(p, st, a), b)
    decreases b
  {
    if b > 0 {
      TicksAdd(p, st, a, b - 1);
    }
  }

  /** No rung fires while one candidate is left, once the counter has passed
      r, or before it reaches r: only the counter moves. */
  lemma {:induction false} Quiet(p: Plan, st: Counters, k: nat)
    requires Ready(p, st)
    requires st.s == 1 || st.r <= st.nIterations || st.nIterations + k < st.r
    ensures Ticks(p, st, k) == st.(nIterations := st.nIterations + k)
    decreases k
  {
    if k > 0 {
      Quiet(p, st, k - 1);
    }
  }

  /** From a counter below r with more than one candidate active, the rung
      fires on exactly the observation that brings the counter to r. */
  lemma {:induction false} NextRung(p: Plan, st: Counters)
    requires Ready(p, st) && st.s > 1 && st.nIterations < st.r
    ensures Fires(st.(nIterations := st.r - 1))
    ensures Ticks(p, st, st.r - st.nIterations) == Tick(p, st.(nIterations := st.r - 1))
  {
    Quiet(p, st, st.r - st.nIterations - 1);
  }

  /** At most c rungs fire, and the budget credited to them never exceeds a
      non-negative budget. */
  lemma BudgetNeverExceeded(p: Plan, st: Counters)
    requires Inv(p, st) && p.budget >= 0
    ensures st.nRungs <= p.c
    ensures st.budgetUsed <= p.budget
  {
    CostTotal(st.budgetUsed, p.c, p.budget, st.nRungs);
  }

  /** One candidate is left exactly when all c rungs have fired. */
  lemma ConvergedAfterAllRungs(p: Plan, st: Counters)
    requires Inv(p, st)
    ensures st.s == 1 <==> st.nRungs == p.c
  {
  }

  /** A budget below n * c gives a first rung length of at most zero; the
      counter is already 1 when first compared, so no rung ever fires. */
  lemma NoRungWithSmallBudget(p: Plan, k: nat)
    requires ValidPlan(p) && p.budget < p.n * p.c
    ensures Ticks(p, Init(p), k) == Init(p).(nIterations := k)
  {
    var st := Init(p);
    MulCancel(st.r, 1, p.n * p.c);
    Quiet(p, st, k);
  }

  /** The configuration of the documented example: 10 candidates, eta = 2,
      budget 2000. */
  const Example: Plan := Plan(10, 2, 2000, 4)

  /** ceil(log_2(n)) for the pool sizes the example passes through. */
  lemma CeilLogTwo()
    ensures CeilLog(2, 2) == 1
  {
    assert CeilDiv(2, 2) == 1;
  }

  lemma CeilLogThree()
    ensures CeilLog(3, 2) == 2
  {
    assert CeilDiv(3, 2) == 2;
    CeilLogTwo();
  }

  lemma CeilLogFive()
    ensures CeilLog(5, 2) == 3
  {
    assert CeilDiv(5, 2) == 3;
    CeilLogThree();
  }

  /** ceil(log_2(10)) = 4: the cutoffs go 10, 5, 3, 2, 1. */
  lemma ExampleRungCount()
    ensures CeilLog(10, 2) == 4
  {
    assert CeilDiv(10, 2) == 5;
    CeilLogFive();
  }

  lemma ExampleValid()
    ensures ValidPlan(Example) && Init(Example) == Counters(10, 50, 0, 0, 0)
  {
    ExampleRungCount();
    assert RungLength(2000, 10, 4) == 50;
  }

  /** If no rung fires between observation a and observation k, the counters
      after k observations are those after a with only the counter moved. */
  lemma Phase(p: Plan, st: Counters, a: nat, k: nat)
    requires Ready(p, st) && a <= k
    requires var m := Ticks(p, st, a); m.s == 1 || m.r <= m.nIterations || st.nIterations + k < m.r
    ensures Ticks(p, st, k) == Ticks(p, st, a).(nIterations := st.nIterations + k)
  {
    TicksAdd(p, st, a, k - a);
    Quiet(p, Ticks(p, st, a), k - a);
  }

  /** Phase, for known counters m after a observations: the active count,
      rung count and credited budget after k observations are m's. */
  lemma PhaseFrom(p: Plan, st: Counters, a: nat, k: nat, m: Counters)
    requires Ready(p, st) && a <= k && Ticks(p, st, a) == m
    requires m.s == 1 || m.r <= m.nIterations || st.nIterations + k < m.r
    ensures var st' := Ticks(p, st, k); st'.s == m.s && st'.nRungs == m.nRungs && st'.budgetUsed == m.budgetUsed
  {
    Phase(p, st, a, k);
  }

  /** RungAt, for known counters m after a observations and m' after the
      rung: the counters after b observations are m'. */
  lemma RungFrom(p: Plan, st: Counters, a: nat, b: nat, m: Counters, m': Counters)
    requires Ready(p, st) && Ticks(p, st, a) == m
    requires m.s > 1 && m.nIterations < m.r && b == m.r - st.nIterations
    requires Tick(p, m.(nIterations := m.r - 1)) == m'
    ensures Ticks(p, st, b) == m'
  {
    RungAt(p, st, a, b);
  }

  /** If a rung is pending after a observations, it fires on observation
      b, the one that brings the cumulative counter to r. */
  lemma RungAt(p: Plan, st: Counters, a: nat, b: nat)
    requires Ready(p, st)
    requires var m := Ticks(p, st, a); m.s > 1 && m.nIterations < m.r && b == m.r - st.nIterations
    ensures var m := Ticks(p, st, a); Ticks(p, st, b) == Tick(p, m.(nIterations := m.r - 1))
  {
    var m := Ticks(p, st, a);
    TicksAdd(p, st, a, m.r - m.nIterations);
    NextRung(p, m);
  }

  /* The example lemmas take the initial counters as a parameter st0 (they
     are Init(Example), by ExampleValid), so that Ticks is never applied to
     literal arguments only, which the verifier would unfold step by step. */

  lemma ExampleRung1(st0: Counters)
    requires st0 == Counters(10, 50, 0, 0, 0)
    ensures Ticks(Example, st0, 50) == Counters(5, 100, 50, 1, 500)
  {
    assert Ticks(Example, st0, 0) == st0;
    assert CeilDiv(10, 2) == 5 && RungLength(2000, 5, 4) == 100;
    assert Fires(Counters(10, 50, 49, 0, 0));
    assert Tick(Example, Counters(10, 50, 49, 0, 0)) == Counters(5, 100, 50, 1, 500);
    RungFrom(Example, st0, 0, 50, Counters(10, 50, 0, 0, 0), Counters(5, 100, 50, 1, 500));
  }

  lemma ExampleRung2(st0: Counters)
    requires st0 == Counters(10, 50, 0, 0, 0)
    ensures Ticks(Example, st0, 100) == Counters(3, 166, 100, 2, 1000)
  {
    ExampleRung1(st0);
    assert CeilDiv(5, 2) == 3 && RungLength(2000, 3, 4) == 166;
    assert Fires(Counters(5, 100, 99, 1, 500));
    assert Tick(Example, Counters(5, 100, 99, 1, 500)) == Counters(3, 166, 100, 2, 1000);
    RungFrom(Example, st0, 50, 100, Counters(5, 100, 50, 1, 500), Counters(3, 166, 100, 2, 1000));
  }

  lemma ExampleRung3(st0: Counters)
    requires st0 == Counters(10, 50, 0, 0, 0)
    ensures Ticks(Example, st0, 166) == Counters(2, 250, 166, 3, 1498)
  {
    ExampleRung2(st0);
    assert CeilDiv(3, 2) == 2 && RungLength(2000, 2, 4) == 250;
    assert Fires(Counters(3, 166, 165, 2, 1000));
    assert Tick(Example, Counters(3, 166, 165, 2, 1000)) == Counters(2, 250, 166, 3, 1498);
    RungFrom(Example, st0, 100, 166, Counters(3, 166, 100, 2, 1000), Counters(2, 250, 166, 3, 1498));
  }

  lemma ExampleRung4(st0: Counters)
    requires st0 == Counters(10, 50, 0, 0, 0)
    ensures Ticks(Example, st0, 250) == Counters(1, 500, 250, 4, 1998)
  {
    ExampleRung3(st0);
    assert CeilDiv(2, 2) == 1 && RungLength(2000, 1, 4) == 500;
    assert Fires(Counters(2, 250, 249, 3, 1498));
    assert Tick(Example, Counters(2, 250, 249, 3, 1498)) == Counters(1, 500, 250, 4, 1998);
    RungFrom(Example, st0, 166, 250, Counters(2, 250, 166, 3, 1498), Counters(1, 500, 250, 4, 1998));
  }

  /** The first two rungs of the documented trace. */
  lemma ExampleTraceEarly(st0: Counters, k: nat)
    requires st0 == Counters(10, 50, 0, 0, 0) && k < 166
    ensures var st := Ticks(Example, st0, k);
      && (k < 50 ==> st.s == 10 && st.nRungs == 0 && st.budgetUsed == 0)
      && (50 <= k < 100 ==> st.s == 5 && st.nRungs == 1 && st.budgetUsed == 500)
      && (100 <= k ==> st.s == 3 && st.nRungs == 2 && st.budgetUsed == 1000)
  {
    if k < 50 {
      assert Ticks(Example, st0, 0) == st0;
      PhaseFrom(Example, st0, 0, k, st0);
    } else if k < 100 {
      ExampleRung1(st0);
      PhaseFrom(Example, st0, 50, k, Counters(5, 100, 50, 1, 500));
    } else {
      ExampleRung2(st0);
      PhaseFrom(Example, st0, 100, k, Counters(3, 166, 100, 2, 1000));
    }
  }

  /** The last two rungs of the documented trace, and what follows. */
  lemma ExampleTraceLate(st0: Counters, k: nat)
    requires st0 == Counters(10, 50, 0, 0, 0) && k >= 166
    ensures var st := Ticks(Example, st0, k);
      && (k < 250 ==> st.s == 2 && st.nRungs == 3 && st.budgetUsed == 1498)
      && (250 <= k ==> st.s == 1 && st.nRungs == 4 && st.budgetUsed == 1998)
  {
    if k < 250 {
      ExampleRung3(st0);
      PhaseFrom(Example, st0, 166, k, Counters(2, 250, 166, 3, 1498));
    } else {
      ExampleRung4(st0);
      PhaseFrom(Example, st0, 250, k, Counters(1, 500, 250, 4, 1998));
    }
  }

  /** The documented trace: rungs fire at cumulative observation counts 50,
      100, 166 and 250; s goes 10, 5, 3, 2, 1; the budget credited goes 500,
      1000, 1498, 1998 and stays there. */
  lemma ExampleTrace(st0: Counters, k: nat)
    requires ValidPlan(Example) && st0 == Init(Example)
    ensures var st := Ticks(Example, st0, k);
      && (k < 50 ==> st.s == 10 && st.nRungs == 0 && st.budgetUsed == 0)
      && (50 <= k < 100 ==> st.s == 5 && st.nRungs == 1 && st.budgetUsed == 500)
      && (100 <= k < 166 ==> st.s == 3 && st.nRungs == 2 && st.budgetUsed == 1000)
      && (166 <= k < 250 ==> st.s == 2 && st.nRungs == 3 && st.budgetUsed == 1498)
      && (250 <= k ==> st.s == 1 && st.nRungs == 4 && st.budgetUsed == 1998)
  {
    ExampleValid();
    if k < 166 {
      ExampleTraceEarly(st0, k);
    } else {
      ExampleTraceLate(st0, k);
    }
  }

  /** A configuration where the recomputed rung length does not move past
      the counter: 3 candidates, eta = 2, budget 6. */
  const Stalling: Plan := Plan(3, 2, 6, 2)

  /** The first rung of that configuration fires after one observation and
      leaves r = 1 with the counter already at 1. */
  lemma StallingFirstRung()
    ensures ValidPlan(Stalling)
    ensures Ticks(Stalling, Init(Stalling), 1) == Counters(2, 1, 1, 1, 3)
  {
    CeilLogThree();
    assert RungLength(6, 3, 2) == 1;
    NextRung(Stalling, Init(Stalling));
    assert CeilDiv(3, 2) == 2 && RungLength(6, 2, 2) == 1;
  }

  /** Once the recomputed rung length is not beyond the counter, no rung
      fires again, however many candidates are still active: from then on
      only the counter moves. */
  lemma StalledForGood(p: Plan, st: Counters, k: nat)
    requires Ready(p, st) && st.s > 1 && st.r <= st.nIterations
    ensures Ticks(p, st, k) == st.(nIterations := st.nIterations + k)
  {
    Quiet(p, st, k);
  }

  /** StalledForGood, for known counters m after a observations. */
  lemma StalledAfter(p: Plan, st: Counters, a: nat, k: nat, m: Counters)
    requires Ready(p, st) && a <= k && Ticks(p, st, a) == m
    requires m.s > 1 && m.r <= m.nIterations
    ensures Ticks(p, st, k) == m.(nIterations := m.nIterations + (k - a))
  {
    TicksAdd(p, st, a, k - a);
    StalledForGood(p, m, k - a);
  }

  /** StalledAfter for a first rung that leaves two candidates with a rung
      length of 1 and the counter at 1: only the counter moves afterwards. */
  lemma StallAfterFirstRung(p: Plan, st0: Counters, k: nat)
    requires Ready(p, st0) && k >= 1
    requires Ticks(p, st0, 1) == Counters(2, 1, 1, 1, 3)
    ensures Ticks(p, st0, k) == Counters(2, 1, k, 1, 3)
  {
    StalledAfter(p, st0, 1, k, Counters(2, 1, 1, 1, 3));
  }

  /** After the first rung of the stalling configuration no rung fires
      again: two candidates stay active for good and the rung counter stays
      at 1, although c = 2 rungs were planned. */
  lemma StallingTrace(st0: Counters, k: nat)
    requires ValidPlan(Stalling) && st0 == Init(Stalling) && k >= 1
    ensures Ticks(Stalling, st0, k) == Counters(2, 1, k, 1, 3)
    ensures Stalling.c == 2
  {
    StallingFirstRung();
    StallAfterFirstRung(Stalling, st0, k);
  }
}
